/** Resumable uploads: presigned parts, resume after a crash, and a commit that trusts only the storage. */
module Files {
  import opened Common
  import opened Parts

  datatype Row = Row(size: nat, plan: Plan)

  datatype Part = Part(partNumber: nat, size: nat)

  /** A presigned PUT for one part; the signature covers the part number and the content length. */
  datatype PartUrl = PartUrl(partNumber: nat, length: int)

  datatype Verdict = Accepted | WrongCount(uploaded: nat) | WrongSize(partNumber: nat)

  datatype Phase = Uploading | Assembled(bytes: seq<bv8>) | Gone

  type Stored = map<nat, seq<bv8>>

  /** What the commit relies on; every plan planParts makes has it. */
  ghost predicate SoundRow(row: Row) {
    Fits(row.plan, row.size) && row.plan.partCount <= MAX_PARTS
  }

  lemma PlannedRowsAreSound(size: nat)
    requires 1 <= size <= MAX_OBJECT_BYTES
    ensures PlanParts(size).Planned? && SoundRow(Row(size, PlanParts(size).plan))
  {
    PlanIsLeast(size);
    PlansFit(size);
  }

  function Numbers(count: nat): (numbers: set<nat>)
    ensures forall n :: n in numbers <==> 1 <= n <= count
  {
    if count == 0 then {} else Numbers(count - 1) + {count}
  }

  /** ListParts: one entry per stored number, ascending. */
  function ListParts(stored: Stored, upTo: nat): seq<Part> {
    if upTo == 0 then []
    else ListParts(stored, upTo - 1) + (if upTo in stored then [Part(upTo, |stored[upTo]|)] else [])
  }

  predicate RightSize(row: Row, p: Part) { p.size == PartLength(row.plan, row.size, p.partNumber) }

  function FirstWrong(row: Row, parts: seq<Part>): Option<nat> {
    if parts == [] then None
    else if !RightSize(row, parts[0]) then Some(parts[0].partNumber)
    else FirstWrong(row, parts[1..])
  }

  function Check(row: Row, parts: seq<Part>): Verdict {
    if |parts| != row.plan.partCount then WrongCount(|parts|)
    else
      match FirstWrong(row, parts)
      case Some(n) => WrongSize(n)
      case None => Accepted
  }

  /** The URLs a resume hands out, up to part `n`. */
  function Missing(row: Row, have: set<nat>, n: nat): seq<PartUrl> {
    if n == 0 then []
    else Missing(row, have, n - 1) + (if n in have then [] else [PartUrl(n, PartLength(row.plan, row.size, n))])
  }

  // ---- Resume ----

  lemma {:induction false} MissingEntries(row: Row, have: set<nat>, n: nat)
    ensures forall u :: u in Missing(row, have, n) <==>
      u.partNumber in Numbers(n) - have && u.length == PartLength(row.plan, row.size, u.partNumber)
  {
    if n > 0 {
      MissingEntries(row, have, n - 1);
    }
  }

  ghost predicate Ascending(urls: seq<PartUrl>) {
    forall i, j :: 0 <= i < j < |urls| ==> urls[i].partNumber < urls[j].partNumber
  }

  lemma AscendingAppend(urls: seq<PartUrl>, last: PartUrl)
    requires Ascending(urls) && forall u :: u in urls ==> u.partNumber < last.partNumber
    ensures Ascending(urls + [last])
  {
    assert forall i :: 0 <= i < |urls| ==> urls[i] in urls;
  }

  lemma {:induction false} MissingAscends(row: Row, have: set<nat>, n: nat)
    ensures Ascending(Missing(row, have, n))
  {
    if n > 0 {
      MissingAscends(row, have, n - 1);
      MissingEntries(row, have, n - 1);
      var before := Missing(row, have, n - 1);
      if n in have {
        assert Missing(row, have, n) == before;
      } else {
        AscendingAppend(before, PartUrl(n, PartLength(row.plan, row.size, n)));
      }
    }
  }

  /** A resume issues exactly the part numbers not in storage, ascending, each once, with its planned length. */
  lemma MissingIsExact(row: Row, have: set<nat>, n: nat)
    ensures var urls := Missing(row, have, n);
            && (forall i :: 0 <= i < |urls| ==>
                  urls[i].partNumber in Numbers(n) - have && urls[i].length == PartLength(row.plan, row.size, urls[i].partNumber))
            && (forall k :: k in Numbers(n) - have ==> PartUrl(k, PartLength(row.plan, row.size, k)) in urls)
            && Ascending(urls)
  {
    MissingEntries(row, have, n);
    MissingAscends(row, have, n);
    var urls := Missing(row, have, n);
    assert forall i :: 0 <= i < |urls| ==> urls[i] in urls;
  }

  // ---- Commit: the pigeonhole ----

  lemma {:induction false} NumbersCount(count: nat)
    ensures |Numbers(count)| == count
  {
    if count == 0 {
      assert Numbers(0) == {};
    } else {
      NumbersCount(count - 1);
      assert Numbers(count) == Numbers(count - 1) + {count};
    }
  }

  function Held(keys: set<nat>, upTo: nat): (held: set<nat>)
    ensures forall n :: n in held <==> n in keys && 1 <= n <= upTo
  {
    if upTo == 0 then {} else Held(keys, upTo - 1) + if upTo in keys then {upTo} else {}
  }

  lemma {:induction false} ListLength(stored: Stored, upTo: nat)
    ensures |ListParts(stored, upTo)| == |Held(stored.Keys, upTo)|
  {
    if upTo > 0 {
      ListLength(stored, upTo - 1);
    }
  }

  lemma {:induction false} ListEntries(stored: Stored, upTo: nat)
    ensures forall p :: p in ListParts(stored, upTo) <==>
      1 <= p.partNumber <= upTo && p.partNumber in stored && p.size == |stored[p.partNumber]|
  {
    if upTo > 0 {
      ListEntries(stored, upTo - 1);
    }
  }

  lemma {:induction false} FirstWrongNone(row: Row, parts: seq<Part>)
    ensures FirstWrong(row, parts).None? <==> forall p :: p in parts ==> RightSize(row, p)
  {
    if parts != [] {
      FirstWrongNone(row, parts[1..]);
      assert parts == [parts[0]] + parts[1..];
    }
  }

  /** Every stored part has the length the plan gives its number. */
  ghost predicate RightLengths(row: Row, stored: Stored) {
    forall n :: n in stored ==> |stored[n]| == PartLength(row.plan, row.size, n)
  }

  ghost predicate Numbered(stored: Stored, upTo: nat) {
    forall n :: n in stored ==> 1 <= n <= upTo
  }

  /** What the check accepts, whoever uploaded: as many parts as planned, each with the length of its number. */
  lemma AcceptedIff(row: Row, stored: Stored)
    requires Numbered(stored, MAX_PARTS)
    ensures Check(row, ListParts(stored, MAX_PARTS)).Accepted? <==> |stored.Keys| == row.plan.partCount && RightLengths(row, stored)
  {
    var parts := ListParts(stored, MAX_PARTS);
    ListLength(stored, MAX_PARTS);
    ListEntries(stored, MAX_PARTS);
    FirstWrongNone(row, parts);
    assert Held(stored.Keys, MAX_PARTS) == stored.Keys;
    if RightLengths(row, stored) {
      assert forall p :: p in parts ==> RightSize(row, p);
    } else {
      var n :| n in stored && |stored[n]| != PartLength(row.plan, row.size, n);
      assert Part(n, |stored[n]|) in parts && !RightSize(row, Part(n, |stored[n]|));
    }
  }

  /** n is the least stored number whose part has the wrong length. */
  ghost predicate LeastWrong(row: Row, stored: Stored, n: nat) {
    && n in stored && |stored[n]| != PartLength(row.plan, row.size, n)
    && forall m :: m in stored && m < n ==> |stored[m]| == PartLength(row.plan, row.size, m)
  }

  lemma {:induction false} FirstWrongAppends(row: Row, parts: seq<Part>, more: seq<Part>)
    ensures FirstWrong(row, parts + more) ==
      if FirstWrong(row, parts).Some? then FirstWrong(row, parts) else FirstWrong(row, more)
  {
    if parts == [] {
      assert parts + more == more;
    } else {
      FirstWrongAppends(row, parts[1..], more);
      assert (parts + more)[1..] == parts[1..] + more;
    }
  }

  lemma {:induction false} FirstWrongIsLeast(row: Row, stored: Stored, upTo: nat)
    ensures forall n: nat :: FirstWrong(row, ListParts(stored, upTo)) == Some(n) <==> 1 <= n <= upTo && LeastUpTo(row, stored, n)
    ensures FirstWrong(row, ListParts(stored, upTo)).None? ==>
      forall n :: n in stored && 1 <= n <= upTo ==> |stored[n]| == PartLength(row.plan, row.size, n)
  {
    if upTo > 0 {
      FirstWrongIsLeast(row, stored, upTo - 1);
      FirstWrongAppends(row, ListParts(stored, upTo - 1), if upTo in stored then [Part(upTo, |stored[upTo]|)] else []);
    }
  }

  /** ... among those from 1. */
  ghost predicate LeastUpTo(row: Row, stored: Stored, n: nat) {
    && n in stored && |stored[n]| != PartLength(row.plan, row.size, n)
    && forall m :: m in stored && 1 <= m < n ==> |stored[m]| == PartLength(row.plan, row.size, m)
  }

  /** A refusal tells how many parts are there, or names the least one of the wrong length. */
  lemma RefusalIsExact(row: Row, stored: Stored, n: nat)
    requires Numbered(stored, MAX_PARTS)
    ensures Check(row, ListParts(stored, MAX_PARTS)) == WrongCount(n) <==> n == |stored.Keys| && n != row.plan.partCount
    ensures Check(row, ListParts(stored, MAX_PARTS)) == WrongSize(n) <==>
      |stored.Keys| == row.plan.partCount && LeastWrong(row, stored, n)
  {
    RefusalUpTo(row, stored, MAX_PARTS, n);
  }

  lemma RefusalUpTo(row: Row, stored: Stored, upTo: nat, n: nat)
    requires Numbered(stored, upTo)
    ensures Check(row, ListParts(stored, upTo)) == WrongCount(n) <==> n == |stored.Keys| && n != row.plan.partCount
    ensures Check(row, ListParts(stored, upTo)) == WrongSize(n) <==>
      |stored.Keys| == row.plan.partCount && LeastWrong(row, stored, n)
  {
    ListLength(stored, upTo);
    assert Held(stored.Keys, upTo) == stored.Keys;
    FirstWrongIsLeast(row, stored, upTo);
    assert LeastWrong(row, stored, n) <==> 1 <= n <= upTo && LeastUpTo(row, stored, n);
  }

  /**
   * The pigeonhole at commit. An accepted listing is the whole plan exactly when no part number lies beyond it.
   * Presigned URLs never name such a number, so for parts sent through them accepted means {1..partCount}.
   */
  lemma AcceptedIsWholePlanIff(row: Row, stored: Stored)
    requires Numbered(stored, MAX_PARTS) && Check(row, ListParts(stored, MAX_PARTS)).Accepted?
    ensures stored.Keys == Numbers(row.plan.partCount) <==> Numbered(stored, row.plan.partCount)
  {
    AcceptedIff(row, stored);
    NumbersCount(row.plan.partCount);
    if Numbered(stored, row.plan.partCount) {
      SubsetCardinality(stored.Keys, Numbers(row.plan.partCount));
    }
  }

  /** With parts that came through presigned URLs, commit accepts if and only if the stored set is {1..partCount}. */
  lemma PresignedAcceptedIff(row: Row, stored: Stored)
    requires row.plan.partCount <= MAX_PARTS && Numbered(stored, row.plan.partCount) && RightLengths(row, stored)
    ensures Check(row, ListParts(stored, MAX_PARTS)).Accepted? <==> stored.Keys == Numbers(row.plan.partCount)
  {
    AcceptedIff(row, stored);
    NumbersCount(row.plan.partCount);
    if |stored.Keys| == row.plan.partCount {
      SubsetCardinality(stored.Keys, Numbers(row.plan.partCount));
    }
  }

  /** partLength gives every number past the plan the last part's length, so the size test alone lets it in. */
  lemma OutOfPlanPartPasses(first: seq<bv8>, last: seq<bv8>) returns (row: Row, stored: Stored)
    requires |first| == MIN_PART_BYTES && |last| == 4 * MIB
    ensures PlanParts(row.size) == Planned(row.plan) && row.plan.partCount == 2
    ensures stored.Keys == {1, 3} && Check(row, ListParts(stored, MAX_PARTS)).Accepted?
  {
    var size := MIN_PART_BYTES + 4 * MIB;
    row := Row(size, Plan(MIN_PART_BYTES, 2));
    stored := map[1 := first, 3 := last];
    var byCount := SizeByCount(size);
    assert WholeMiB(MIN_PART_BYTES);
    assert CeilDiv(size, MIN_PART_BYTES) == 2;
    assert stored.Keys == {1, 3};
    AcceptedIff(row, stored);
  }

  // ---- The upload as a machine ----

  datatype Upload = Upload(
    row: Row,
    stored: Stored,
    urls: set<PartUrl>,       // presigned and not expired
    passed: set<Stored>,      // listings some commit has checked and accepted
    phase: Phase)

  datatype Action =
    | Sign                                  // intent, or a resume after a crash
    | Put(url: PartUrl, body: seq<bv8>)
    | Expire(url: PartUrl)
    | Inspect                               // completeFromStorage lists and checks
    | Complete(listed: Stored)              // ... and completes what it listed
    | Abort                                 // the sweep of unfinished uploads

  predicate Enabled(u: Upload, a: Action) {
    match a
    case Put(url, _) => url in u.urls
    case Complete(listed) => listed in u.passed
    case _ => true
  }

  /** The storage takes a part only under a live upload and with the signed length. */
  function Next(u: Upload, a: Action): Upload
    requires Enabled(u, a)
  {
    match a
    case Sign =>
      if u.phase.Uploading?
      then u.(urls := u.urls + set x | x in Missing(u.row, u.stored.Keys, u.row.plan.partCount))
      else u
    case Put(url, body) =>
      if u.phase.Uploading? && |body| == url.length then u.(stored := u.stored[url.partNumber := body]) else u
    case Expire(url) => u.(urls := u.urls - {url})
    case Inspect =>
      if u.phase.Uploading? && Check(u.row, ListParts(u.stored, MAX_PARTS)).Accepted?
      then u.(passed := u.passed + {u.stored})
      else u
    case Complete(listed) =>
      if u.phase.Uploading? && Unreplaced(listed, u.stored)
      then u.(phase := Assembled(Assemble(listed, MAX_PARTS)))
      else u
    case Abort => u.(phase := if u.phase.Uploading? then Gone else u.phase)
  }

  /** Every listed ETag is still the stored one. */
  predicate Unreplaced(listed: Stored, stored: Stored) {
    forall n | n in listed :: n in stored && stored[n] == listed[n]
  }

  ghost predicate PlannedUrl(row: Row, url: PartUrl) {
    1 <= url.partNumber <= row.plan.partCount && url.length == PartLength(row.plan, row.size, url.partNumber)
  }

  ghost predicate Whole(row: Row, parts: Stored) {
    parts.Keys == Numbers(row.plan.partCount) && RightLengths(row, parts)
  }

  ghost predicate Inv(u: Upload) {
    && SoundRow(u.row)
    && (forall url :: url in u.urls ==> PlannedUrl(u.row, url))
    && Numbered(u.stored, u.row.plan.partCount) && RightLengths(u.row, u.stored)
    && (forall parts :: parts in u.passed ==> Whole(u.row, parts))
    && (u.phase.Assembled? ==> |u.phase.bytes| == u.row.size)
  }

  lemma WholeAddsUp(row: Row, parts: Stored)
    requires SoundRow(row) && Whole(row, parts)
    ensures |Assemble(parts, MAX_PARTS)| == row.size
  {
    var count := row.plan.partCount;
    assert forall n :: 1 <= n <= count ==> n in Numbers(count);
    AssembleStops(parts, count, MAX_PARTS);
    PlannedLengthsAddUp(parts, row.plan, row.size, count);
  }

  lemma SignKeeps(u: Upload)
    requires Inv(u)
    ensures Inv(Next(u, Sign))
  {
    MissingIsExact(u.row, u.stored.Keys, u.row.plan.partCount);
  }

  lemma InspectKeeps(u: Upload)
    requires Inv(u)
    ensures Inv(Next(u, Inspect))
  {
    PresignedAcceptedIff(u.row, u.stored);
  }

  lemma StepKeeps(u: Upload, a: Action)
    requires Inv(u) && Enabled(u, a)
    ensures Inv(Next(u, a))
  {
    match a
    case Sign => SignKeeps(u);
    case Put(_, _) =>
    case Expire(_) =>
    case Inspect => InspectKeeps(u);
    case Complete(listed) => WholeAddsUp(u.row, listed);
    case Abort =>
  }

  /** A listing that was checked holds the client's bytes, and so does the storage. */
  ghost predicate Faithful(u: Upload, file: seq<bv8>) {
    && (forall n :: n in u.stored ==> SliceOf(file, u.row.plan, n, u.stored[n]))
    && (forall parts, n :: parts in u.passed && n in parts ==> SliceOf(file, u.row.plan, n, parts[n]))
    && (u.phase.Assembled? ==> u.phase.bytes == file)
  }

  lemma WholeFileAssembles(row: Row, parts: Stored, file: seq<bv8>)
    requires SoundRow(row) && Whole(row, parts) && |file| == row.size
    requires forall n :: n in parts ==> SliceOf(file, row.plan, n, parts[n])
    ensures Assemble(parts, MAX_PARTS) == file
  {
    var count := row.plan.partCount;
    assert forall n :: 1 <= n <= count ==> n in Numbers(count);
    AssembleStops(parts, count, MAX_PARTS);
    SlicesTile(file, parts, row.plan, count);
    assert file[..|file|] == file;
  }

  /** The client cuts what it sends from one file. */
  ghost predicate FromFile(u: Upload, a: Action, file: seq<bv8>) {
    a.Put? ==> SliceOf(file, u.row.plan, a.url.partNumber, a.body)
  }

  lemma FaithfulStep(u: Upload, a: Action, file: seq<bv8>)
    requires Inv(u) && Enabled(u, a) && Faithful(u, file) && |file| == u.row.size && FromFile(u, a, file)
    ensures Faithful(Next(u, a), file)
  {
    if a.Complete? {
      WholeFileAssembles(u.row, a.listed, file);
    }
  }

  ghost predicate Init(u: Upload) {
    SoundRow(u.row) && u.stored == map[] && u.urls == {} && u.passed == {} && u.phase == Uploading
  }

  ghost predicate IsRun(run: seq<Upload>, acts: seq<Action>) {
    && |run| == |acts| + 1 && Init(run[0])
    && forall i :: 0 <= i < |acts| ==> StepAt(run, acts, i)
  }

  ghost predicate StepAt(run: seq<Upload>, acts: seq<Action>, i: nat)
    requires i < |acts| && |run| == |acts| + 1
  {
    Enabled(run[i], acts[i]) && run[i + 1] == Next(run[i], acts[i])
  }

  /**
   * Through any sequence of crashes, partial uploads, expiries, resumes and racing commits, URLs stay inside the
   * plan, every listing a commit accepted is the whole plan, and a completed object has the declared size.
   */
  lemma {:induction false} RunKeeps(run: seq<Upload>, acts: seq<Action>, i: nat)
    requires IsRun(run, acts) && i < |run|
    ensures Inv(run[i]) && run[i].row == run[0].row
  {
    if i > 0 {
      RunKeeps(run, acts, i - 1);
      assert StepAt(run, acts, i - 1);
      StepKeeps(run[i - 1], acts[i - 1]);
    }
  }

  ghost predicate AllFromFile(run: seq<Upload>, acts: seq<Action>, file: seq<bv8>)
    requires |run| == |acts| + 1
  {
    forall i :: 0 <= i < |acts| ==> FromFile(run[i], acts[i], file)
  }

  /** If every body was cut from one file of the declared size, the completed object is that file. */
  lemma {:induction false} CompletedObjectIsTheFile(run: seq<Upload>, acts: seq<Action>, file: seq<bv8>, i: nat)
    requires IsRun(run, acts) && i < |run| && AllFromFile(run, acts, file) && |file| == run[0].row.size
    ensures Faithful(run[i], file)
  {
    if i > 0 {
      CompletedObjectIsTheFile(run, acts, file, i - 1);
      RunKeeps(run, acts, i - 1);
      assert StepAt(run, acts, i - 1);
      FaithfulStep(run[i - 1], acts[i - 1], file);
    }
  }

  // ---- The methods ----

  /** What storage holds after the client sent the parts of `urls`. */
  function PutAll(stored: Stored, urls: seq<PartUrl>, file: seq<bv8>, plan: Plan): Stored
    requires forall i :: 0 <= i < |urls| ==> 0 <= Offset(plan.partSize, urls[i].partNumber) <= |file|
  {
    if urls == [] then stored
    else
      var last := urls[|urls| - 1];
      PutAll(stored, urls[..|urls| - 1], file, plan)[last.partNumber := Slice(file, plan, last.partNumber)]
  }

  lemma PutAllExtends(stored: Stored, urls: seq<PartUrl>, file: seq<bv8>, plan: Plan, k: nat)
    requires k < |urls|
    requires forall i :: 0 <= i < |urls| ==> 0 <= Offset(plan.partSize, urls[i].partNumber) <= |file|
    ensures PutAll(stored, urls[..k + 1], file, plan) ==
      PutAll(stored, urls[..k], file, plan)[urls[k].partNumber := Slice(file, plan, urls[k].partNumber)]
  {
    assert urls[..k + 1][..k] == urls[..k];
  }

  lemma {:induction false} PutAllKeys(stored: Stored, urls: seq<PartUrl>, file: seq<bv8>, plan: Plan)
    requires forall i :: 0 <= i < |urls| ==> 0 <= Offset(plan.partSize, urls[i].partNumber) <= |file|
    ensures PutAll(stored, urls, file, plan).Keys == stored.Keys + set i | 0 <= i < |urls| :: urls[i].partNumber
  {
    if urls != [] {
      var init := urls[..|urls| - 1];
      PutAllKeys(stored, init, file, plan);
      var before, after := set i | 0 <= i < |init| :: init[i].partNumber, set i | 0 <= i < |urls| :: urls[i].partNumber;
      forall n | n in after ensures n in before + {urls[|urls| - 1].partNumber} {
        var i :| 0 <= i < |urls| && urls[i].partNumber == n;
        if i < |init| { assert init[i].partNumber == n; }
      }
      forall n | n in before + {urls[|urls| - 1].partNumber} ensures n in after {
        if n in before {
          var i :| 0 <= i < |init| && init[i].partNumber == n;
          assert urls[i].partNumber == n;
        }
      }
      assert after == before + {urls[|urls| - 1].partNumber};
    }
  }

  lemma MissingInFile(row: Row, have: set<nat>, n: nat, i: nat)
    requires SoundRow(row) && n <= row.plan.partCount && i < |Missing(row, have, n)|
    ensures 0 <= Offset(row.plan.partSize, Missing(row, have, n)[i].partNumber) <= row.size
  {
    MissingIsExact(row, have, n);
    OffsetInFile(row.plan, row.size, Missing(row, have, n)[i].partNumber);
  }

  lemma MissingNumbers(row: Row, have: set<nat>, n: nat)
    ensures var urls := Missing(row, have, n);
            (set i | 0 <= i < |urls| :: urls[i].partNumber) == Numbers(n) - have
  {
    MissingIsExact(row, have, n);
    var urls := Missing(row, have, n);
    forall k | k in Numbers(n) - have ensures k in set i | 0 <= i < |urls| :: urls[i].partNumber {
      var i :| 0 <= i < |urls| && urls[i] == PartUrl(k, PartLength(row.plan, row.size, k));
      assert urls[i].partNumber == k;
    }
  }

  /** A resume whose every part arrives leaves exactly the planned set. */
  lemma FinishedResumeIsWhole(row: Row, stored: Stored, file: seq<bv8>)
    requires SoundRow(row) && |file| == row.size && Numbered(stored, row.plan.partCount)
    ensures var urls := Missing(row, stored.Keys, row.plan.partCount);
            && (forall i :: 0 <= i < |urls| ==> 0 <= Offset(row.plan.partSize, urls[i].partNumber) <= |file|)
            && PutAll(stored, urls, file, row.plan).Keys == Numbers(row.plan.partCount)
  {
    var count := row.plan.partCount;
    var urls := Missing(row, stored.Keys, count);
    forall i | 0 <= i < |urls| ensures 0 <= Offset(row.plan.partSize, urls[i].partNumber) <= |file| {
      MissingInFile(row, stored.Keys, count, i);
    }
    MissingNumbers(row, stored.Keys, count);
    PutAllKeys(stored, urls, file, row.plan);
    assert stored.Keys + (Numbers(count) - stored.Keys) == Numbers(count);
  }

  lemma {:induction false} PutAllRightLengths(row: Row, stored: Stored, urls: seq<PartUrl>, file: seq<bv8>)
    requires SoundRow(row) && |file| == row.size && RightLengths(row, stored)
    requires forall i :: 0 <= i < |urls| ==> 1 <= urls[i].partNumber <= row.plan.partCount
    requires forall i :: 0 <= i < |urls| ==> 0 <= Offset(row.plan.partSize, urls[i].partNumber) <= |file|
    ensures RightLengths(row, PutAll(stored, urls, file, row.plan))
  {
    if urls != [] {
      PutAllRightLengths(row, stored, urls[..|urls| - 1], file);
      OffsetInFile(row.plan, row.size, urls[|urls| - 1].partNumber);
    }
  }

  /** After a resume whose every part arrives the commit's check accepts what is stored. */
  lemma FinishedResumeIsAccepted(row: Row, stored: Stored, file: seq<bv8>)
    requires SoundRow(row) && |file| == row.size && Numbered(stored, row.plan.partCount) && RightLengths(row, stored)
    ensures var urls := Missing(row, stored.Keys, row.plan.partCount);
            && (forall i :: 0 <= i < |urls| ==> 0 <= Offset(row.plan.partSize, urls[i].partNumber) <= |file|)
            && Check(row, ListParts(PutAll(stored, urls, file, row.plan), MAX_PARTS)).Accepted?
  {
    var urls := Missing(row, stored.Keys, row.plan.partCount);
    FinishedResumeIsWhole(row, stored, file);
    assert forall i :: 0 <= i < |urls| ==> 1 <= urls[i].partNumber <= row.plan.partCount by {
      MissingIsExact(row, stored.Keys, row.plan.partCount);
    }
    PutAllRightLengths(row, stored, urls, file);
    var after := PutAll(stored, urls, file, row.plan);
    assert Numbered(after, row.plan.partCount) by {
      assert forall n :: n in after ==> n in after.Keys;
    }
    PresignedAcceptedIff(row, after);
  }

  datatype CommitReply =
    Committed | NotFound | NotUploaded | PartsRejected(verdict: Verdict) | PartReplaced | SizeMismatch | WrongContent

  /** What clients and other commits may do in between: any steps of the machine keep these. */
  ghost predicate Harmless(meanwhile: Upload -> Upload) {
    forall u {:trigger meanwhile(u)} :: Inv(u) ==> Inv(meanwhile(u)) && meanwhile(u).row == u.row && u.passed <= meanwhile(u).passed
  }

  /** The upload after its parts were listed and checked, others did `meanwhile`, and the listing was completed. */
  function Completion(u: Upload, meanwhile: Upload -> Upload): Upload {
    var mid := meanwhile(Next(u, Inspect));
    if Enabled(mid, Complete(u.stored)) then Next(mid, Complete(u.stored)) else mid
  }

  lemma CompletionKeeps(u: Upload, meanwhile: Upload -> Upload)
    requires Inv(u) && Harmless(meanwhile) && u.phase.Uploading? && u.stored.Keys == Numbers(u.row.plan.partCount)
    ensures Check(u.row, ListParts(u.stored, MAX_PARTS)).Accepted?
    ensures Next(u, Inspect) == u.(passed := u.passed + {u.stored})
    ensures var mid := meanwhile(Next(u, Inspect));
            && mid.row == u.row && Enabled(mid, Complete(u.stored)) && Inv(Completion(u, meanwhile))
            && Completion(u, meanwhile) == Next(mid, Complete(u.stored))
  {
    PresignedAcceptedIff(u.row, u.stored);
    StepKeeps(u, Inspect);
    var mid := meanwhile(Next(u, Inspect));
    assert u.stored in mid.passed;
    StepKeeps(mid, Complete(u.stored));
  }

  /** With nobody in between, completing an accepted listing assembles it. */
  lemma UndisturbedCompletion(u: Upload, meanwhile: Upload -> Upload)
    requires Inv(u) && u.phase.Uploading? && u.stored.Keys == Numbers(u.row.plan.partCount)
    requires forall v :: meanwhile(v) == v
    ensures Completion(u, meanwhile).phase == Assembled(Assemble(u.stored, MAX_PARTS))
  {
    PresignedAcceptedIff(u.row, u.stored);
  }

  class FileUpload {
    const row: Row
    const multipart: bool     // has an upload id; otherwise one PUT makes the object
    var stored: Stored
    var urls: set<PartUrl>
    var passed: set<Stored>
    var phase: Phase
    var completed: bool

    function View(): Upload
      reads this
    {
      Upload(row, stored, urls, passed, phase)
    }

    /** signFor under an upload that still exists: the parts to send, in order. */
    method SignFor() returns (parts: seq<PartUrl>)
      requires phase.Uploading?
      modifies this`urls
      ensures parts == Missing(row, stored.Keys, row.plan.partCount)
      ensures View() == Next(old(View()), Sign)
    {
      var have := stored.Keys;
      parts := [];
      for n := 1 to row.plan.partCount + 1
        invariant parts == Missing(row, have, n - 1)
      {
        if n in have {
          continue;
        }
        parts := parts + [PartUrl(n, PartLength(row.plan, row.size, n))];
      }
      urls := urls + set x | x in parts;
    }

    method PutPart(url: PartUrl, body: seq<bv8>, linkUp: bool) returns (ok: bool)
      requires url in urls
      modifies this`stored
      ensures ok <==> linkUp && phase.Uploading? && |body| == url.length
      ensures View() == if linkUp then Next(old(View()), Put(url, body)) else old(View())
    {
      ok := linkUp && phase.Uploading? && |body| == url.length;
      if ok {
        stored := stored[url.partNumber := body];
      }
    }

    method CheckParts(parts: seq<Part>) returns (verdict: Verdict)
      ensures verdict == Check(row, parts)
    {
      if |parts| != row.plan.partCount {
        return WrongCount(|parts|);
      }
      for i := 0 to |parts|
        invariant FirstWrong(row, parts) == FirstWrong(row, parts[i..])
      {
        if parts[i].size != PartLength(row.plan, row.size, parts[i].partNumber) {
          return WrongSize(parts[i].partNumber);
        }
      }
      return Accepted;
    }

    /**
     * List, check, complete. Between the check and the completion others do `meanwhile`: a part that was replaced
     * fails the completion, and an upload somebody else completed or aborted is left as it is.
     */
    method CompleteFromStorage(meanwhile: Upload -> Upload) returns (failure: Option<CommitReply>)
      requires Inv(View()) && Harmless(meanwhile)
      modifies this`stored, this`urls, this`passed, this`phase
      ensures Inv(View())
      ensures !old(phase).Uploading? ==> View() == old(View()) && (failure == if phase.Assembled? then None else Some(NotFound))
      ensures old(phase).Uploading? && old(stored).Keys != Numbers(row.plan.partCount) ==>
                View() == old(View()) && failure == Some(PartsRejected(Check(row, ListParts(stored, MAX_PARTS))))
      ensures old(phase).Uploading? && old(stored).Keys == Numbers(row.plan.partCount) ==>
                && View() == Completion(old(View()), meanwhile)
                && failure == if phase.Uploading? then Some(PartReplaced) else None
    {
      if phase.Assembled? {
        return None;
      } else if phase.Gone? {
        return Some(NotFound);
      }
      PresignedAcceptedIff(row, stored);
      var verdict := CheckParts(ListParts(stored, MAX_PARTS));
      if !verdict.Accepted? {
        return Some(PartsRejected(verdict));
      }
      CompletionKeeps(View(), meanwhile);
      var listed := stored;
      passed := passed + {listed};
      var now := meanwhile(View());
      stored, urls, passed, phase := now.stored, now.urls, now.passed, now.phase;
      if phase.Uploading? {
        if !Unreplaced(listed, stored) {
          return Some(PartReplaced);
        }
        phase := Assembled(Assemble(listed, MAX_PARTS));
      }
      return None;
    }

    /**
     * A multipart upload commits exactly when its parts are all there, survive until they are completed, and the
     * first bytes fit the type. A crash after the storage completed but before the row was marked is repaired by
     * committing again, and the size-mismatch branch is one that only a single PUT can reach.
     */
    method Commit(magicMatches: seq<bv8> -> bool, meanwhile: Upload -> Upload) returns (reply: CommitReply)
      requires multipart ==> Inv(View()) && Harmless(meanwhile)
      modifies this
      ensures multipart ==> Inv(View())
      ensures reply.SizeMismatch? <==> !old(completed) && !multipart && old(phase).Assembled? && |old(phase).bytes| != row.size
      ensures completed <==> reply.Committed?
      ensures old(completed) ==> View() == old(View())
      ensures !old(completed) && multipart ==> (reply.Committed? <==>
          || (old(phase).Assembled? && magicMatches(old(phase).bytes))
          || (old(phase).Uploading? && old(stored).Keys == Numbers(row.plan.partCount)
              && var done := Completion(old(View()), meanwhile).phase; done.Assembled? && magicMatches(done.bytes)))
      ensures reply.Committed? && !old(completed) ==> phase.Assembled? && |phase.bytes| == row.size && magicMatches(phase.bytes)
      ensures reply.WrongContent? || reply.SizeMismatch? ==> phase.Gone?
      ensures reply.PartsRejected? || reply.NotFound? ==> View() == old(View())
    {
      if completed {
        return Committed;
      }
      if multipart {
        var failure := CompleteFromStorage(meanwhile);
        if failure.Some? {
          return failure.value;
        }
      }
      if !phase.Assembled? {
        return NotUploaded;
      }
      if |phase.bytes| != row.size {
        phase := Gone;
        return SizeMismatch;
      }
      if !magicMatches(phase.bytes) {
        phase := Gone;
        return WrongContent;
      }
      completed := true;
      return Committed;
    }
  }

  /** One round of the client: cut the part out of the file and PUT it. */
  method SendPart(upload: FileUpload, file: seq<bv8>, part: PartUrl, linkUp: bool) returns (ok: bool)
    requires Inv(upload.View()) && upload.phase.Uploading? && |file| == upload.row.size && part in upload.urls
    modifies upload`stored
    ensures Inv(upload.View()) && ok == linkUp
    ensures 0 <= Offset(upload.row.plan.partSize, part.partNumber) <= |file|
    ensures upload.stored == if ok
      then old(upload.stored)[part.partNumber := Slice(file, upload.row.plan, part.partNumber)]
      else old(upload.stored)
  {
    var plan := upload.row.plan;
    OffsetInFile(plan, upload.row.size, part.partNumber);
    var offset := Offset(plan.partSize, part.partNumber);
    var length := Min(plan.partSize, upload.row.size - offset);
    var buf := file[offset..offset + length];
    StepKeeps(upload.View(), Put(part, buf));
    ok := upload.PutPart(part, buf, linkUp);
  }

  /** The client: send the parts it was given, stopping at the first failure or at a crash. */
  method UploadParts(upload: FileUpload, file: seq<bv8>, parts: seq<PartUrl>, links: seq<bool>, crashAfter: Option<nat>)
    returns (uploaded: nat)
    requires Inv(upload.View()) && upload.phase.Uploading? && |file| == upload.row.size && |links| == |parts|
    requires forall i :: 0 <= i < |parts| ==> parts[i] in upload.urls
    modifies upload`stored
    ensures uploaded <= |parts| && Inv(upload.View())
    ensures forall i :: 0 <= i < |parts| ==> 0 <= Offset(upload.row.plan.partSize, parts[i].partNumber) <= |file|
    ensures upload.stored == PutAll(old(upload.stored), parts[..uploaded], file, upload.row.plan)
    ensures (forall i :: 0 <= i < |links| ==> links[i]) && crashAfter.None? ==> uploaded == |parts|
  {
    var plan := upload.row.plan;
    UrlsInFile(upload.View(), parts);
    uploaded := 0;
    for k := 0 to |parts|
      invariant uploaded == k && Inv(upload.View())
      invariant upload.stored == PutAll(old(upload.stored), parts[..k], file, plan)
    {
      var ok := SendPart(upload, file, parts[k], links[k]);
      if !ok {
        break;
      }
      PutAllExtends(old(upload.stored), parts, file, plan, k);
      uploaded := uploaded + 1;
      if crashAfter.Some? && uploaded >= crashAfter.value {
        return;
      }
    }
  }

  lemma UrlsInFile(u: Upload, parts: seq<PartUrl>)
    requires Inv(u) && forall i :: 0 <= i < |parts| ==> parts[i] in u.urls
    ensures forall i :: 0 <= i < |parts| ==> 0 <= Offset(u.row.plan.partSize, parts[i].partNumber) <= u.row.size
  {
    forall i | 0 <= i < |parts| ensures 0 <= Offset(u.row.plan.partSize, parts[i].partNumber) <= u.row.size {
      OffsetInFile(u.row.plan, u.row.size, parts[i].partNumber);
    }
  }
}
