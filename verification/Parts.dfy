/** Multipart planning: the part size is the least that fits, and the parts tile the file. */
module Parts {
  import opened Common

  const MIB: nat := 1024 * 1024
  const GIB: nat := 1024 * MIB
  const MAX_PARTS: nat := 10_000
  const MIN_PART_BYTES: nat := 5 * MIB
  const MAX_PART_BYTES: nat := 5 * GIB
  const MAX_OBJECT_BYTES: nat := 5 * 1024 * GIB
  const RETRY_BUDGET_SEC: nat := 64
  const SLOW_LINK_BYTES_PER_SEC: nat := 128 * 1024

  function MultipartThreshold(budgetSec: nat, bytesPerSec: nat): nat {
    Max(CeilDiv(budgetSec * bytesPerSec, MIB) * MIB, MIN_PART_BYTES + MIB)
  }

  const MULTIPART_THRESHOLD_BYTES: nat := MultipartThreshold(RETRY_BUDGET_SEC, SLOW_LINK_BYTES_PER_SEC)

  datatype Plan = Plan(partSize: nat, partCount: nat)

  datatype Planning = Planned(plan: Plan) | ObjectTooLarge | PartTooLarge

  function PlanParts(size: nat): Planning {
    if size > MAX_OBJECT_BYTES then ObjectTooLarge
    else
      var byCount := CeilDiv(CeilDiv(size, MAX_PARTS), MIB) * MIB;
      var partSize := Max(MIN_PART_BYTES, byCount);
      if partSize > MAX_PART_BYTES then PartTooLarge
      else Planned(Plan(partSize, CeilDiv(size, partSize)))
  }

  function PartLength(plan: Plan, size: int, partNumber: nat): int {
    if partNumber < plan.partCount then plan.partSize else size - plan.partSize * (plan.partCount - 1)
  }

  // ---- Rounding up ----

  lemma CeilDivBounds(a: nat, b: nat)
    requires b > 0
    ensures CeilDiv(a, b) * b >= a
    ensures (CeilDiv(a, b) - 1) * b < a
  {
    var q, r := (a + b - 1) / b, (a + b - 1) % b;
    assert a + b - 1 == q * b + r;
    assert (q - 1) * b == q * b - b;
  }

  lemma CeilDivLeast(a: nat, b: nat, q: nat)
    requires b > 0 && q * b >= a
    ensures CeilDiv(a, b) <= q
  {
    CeilDivBounds(a, b);
    if CeilDiv(a, b) > q {
      MulAtMost(q, CeilDiv(a, b) - 1, b);
    }
  }

  lemma MulAtMost(x: nat, y: nat, b: nat)
    requires x <= y
    ensures x * b <= y * b
  {
  }

  // ---- The plan ----

  predicate WholeMiB(p: nat) { p % MIB == 0 }

  /** A part size S3 accepts for an object of this size. */
  predicate Feasible(size: nat, p: nat) {
    MIN_PART_BYTES <= p && WholeMiB(p) && size <= MAX_PARTS * p
  }

  lemma SizeByCount(size: nat) returns (byCount: nat)
    ensures byCount == CeilDiv(CeilDiv(size, MAX_PARTS), MIB) * MIB
    ensures WholeMiB(byCount) && size <= MAX_PARTS * byCount
    ensures MAX_PARTS * byCount <= size + MAX_PARTS * MIB
    ensures forall p: nat :: WholeMiB(p) && size <= MAX_PARTS * p ==> byCount <= p
  {
    var atLeast := CeilDiv(size, MAX_PARTS);
    CeilDivBounds(size, MAX_PARTS);
    CeilDivBounds(atLeast, MIB);
    var m := CeilDiv(atLeast, MIB);
    byCount := m * MIB;
    forall p: nat | WholeMiB(p) && size <= MAX_PARTS * p ensures byCount <= p {
      CeilDivLeast(size, MAX_PARTS, p);
      assert p == p / MIB * MIB;
      CeilDivLeast(atLeast, MIB, p / MIB);
    }
  }

  /**
   * Every object S3 takes has a plan; its part size is feasible and the least feasible one, and there are
   * between 1 and 10 000 parts. The "part size above the S3 maximum" branch is never taken.
   */
  lemma PlanIsLeast(size: nat)
    requires 1 <= size <= MAX_OBJECT_BYTES
    ensures PlanParts(size).Planned?
    ensures var plan := PlanParts(size).plan;
            && Feasible(size, plan.partSize) && plan.partSize <= MAX_PART_BYTES
            && (forall p: nat :: Feasible(size, p) ==> plan.partSize <= p)
            && 1 <= plan.partCount <= MAX_PARTS
  {
    var byCount := SizeByCount(size);
    var partSize := Max(MIN_PART_BYTES, byCount);
    assert partSize <= MAX_PART_BYTES;
    CeilDivLeast(size, partSize, MAX_PARTS);
    CeilDivBounds(size, partSize);
  }

  /** Feasible is what the limit on the number of parts demands, no more and no less. */
  lemma FeasibleIffFewParts(size: nat, p: nat)
    requires MIN_PART_BYTES <= p && WholeMiB(p)
    ensures Feasible(size, p) <==> CeilDiv(size, p) <= MAX_PARTS
  {
    CeilDivBounds(size, p);
    if CeilDiv(size, p) <= MAX_PARTS {
      assert CeilDiv(size, p) * p <= MAX_PARTS * p;
    } else if Feasible(size, p) {
      CeilDivLeast(size, p, MAX_PARTS);
    }
  }

  /** What makes a plan tile an object: the parts before the last are full and leave 1..partSize bytes for it. */
  ghost predicate Fits(plan: Plan, size: int) {
    && plan.partSize > 0 && plan.partCount >= 1
    && 1 <= size - plan.partSize * (plan.partCount - 1) <= plan.partSize
  }

  lemma PlansFit(size: nat)
    requires 1 <= size <= MAX_OBJECT_BYTES
    ensures PlanParts(size).Planned? && Fits(PlanParts(size).plan, size)
  {
    PlanIsLeast(size);
    var plan := PlanParts(size).plan;
    CeilDivBounds(size, plan.partSize);
    assert plan.partSize * (plan.partCount - 1) == (plan.partCount - 1) * plan.partSize;
    assert plan.partSize * (plan.partCount - 1) == plan.partCount * plan.partSize - plan.partSize;
  }

  /** Above the threshold, whatever the link, there are at least two parts, so a dropped upload can resume. */
  lemma AboveThresholdIsMultipart(size: nat, budgetSec: nat, bytesPerSec: nat)
    requires MultipartThreshold(budgetSec, bytesPerSec) < size <= MAX_OBJECT_BYTES
    ensures PlanParts(size).Planned? && PlanParts(size).plan.partCount >= 2
  {
    PlansFit(size);
    var byCount := SizeByCount(size);
    var plan := PlanParts(size).plan;
    assert plan.partSize < size;
    assert plan.partCount == 1 ==> plan.partSize * (plan.partCount - 1) == 0;
  }

  lemma DefaultThreshold()
    ensures MULTIPART_THRESHOLD_BYTES == 8 * MIB
  {
    assert RETRY_BUDGET_SEC * SLOW_LINK_BYTES_PER_SEC == 8 * MIB;
    assert CeilDiv(8 * MIB, MIB) == 8;
  }

  // ---- Tiling ----

  /** Where the client reads part `n`, and how much. */
  function Offset(partSize: nat, n: nat): int { (n - 1) * partSize }

  lemma OffsetsAdvance(partSize: nat, n: nat, m: nat)
    requires 1 <= n <= m
    ensures Offset(partSize, n + 1) == Offset(partSize, n) + partSize
    ensures 0 <= Offset(partSize, n) <= Offset(partSize, m)
    ensures Offset(partSize, m) == partSize * (m - 1)
  {
    MulAtMost(n - 1, m - 1, partSize);
  }

  /** Where part `k` ends, and the next one starts. */
  function End(plan: Plan, size: nat, k: nat): int {
    if k < plan.partCount then Offset(plan.partSize, k + 1) else size
  }

  lemma OffsetInFile(plan: Plan, size: nat, n: nat)
    requires Fits(plan, size) && 1 <= n <= plan.partCount
    ensures 0 <= Offset(plan.partSize, n) == End(plan, size, n - 1) < size
    ensures Min(plan.partSize, size - Offset(plan.partSize, n)) == PartLength(plan, size, n)
    ensures 1 <= PartLength(plan, size, n) <= plan.partSize
    ensures Offset(plan.partSize, n) + PartLength(plan, size, n) == End(plan, size, n) <= size
  {
    OffsetsAdvance(plan.partSize, n, plan.partCount);
    if n < plan.partCount {
      OffsetsAdvance(plan.partSize, n + 1, plan.partCount);
    }
  }

  function Slice(file: seq<bv8>, plan: Plan, n: nat): seq<bv8>
    requires 0 <= Offset(plan.partSize, n) <= |file|
  {
    var offset := Offset(plan.partSize, n);
    file[offset..offset + Min(plan.partSize, |file| - offset)]
  }

  /** What CompleteMultipartUpload builds: the parts numbered up to `k`, in part-number order. */
  function Assemble(parts: map<nat, seq<bv8>>, k: nat): seq<bv8> {
    if k == 0 then [] else Assemble(parts, k - 1) + (if k in parts then parts[k] else [])
  }

  lemma {:induction false} AssembleStops(parts: map<nat, seq<bv8>>, count: nat, k: nat)
    requires count <= k && forall n :: n in parts ==> n <= count
    ensures Assemble(parts, k) == Assemble(parts, count)
    decreases k
  {
    if count < k {
      AssembleStops(parts, count, k - 1);
    }
  }

  /** Parts of the planned lengths add up to the declared size. */
  lemma {:induction false} PlannedLengthsAddUp(parts: map<nat, seq<bv8>>, plan: Plan, size: nat, k: nat)
    requires Fits(plan, size) && k <= plan.partCount
    requires forall n :: 1 <= n <= plan.partCount ==> n in parts && |parts[n]| == PartLength(plan, size, n)
    ensures |Assemble(parts, k)| == End(plan, size, k)
  {
    if k > 0 {
      PlannedLengthsAddUp(parts, plan, size, k - 1);
      OffsetInFile(plan, size, k);
    }
  }

  ghost predicate SliceOf(file: seq<bv8>, plan: Plan, n: nat, body: seq<bv8>) {
    0 <= Offset(plan.partSize, n) <= |file| && body == Slice(file, plan, n)
  }

  lemma SliceBounds(file: seq<bv8>, plan: Plan, n: nat, body: seq<bv8>)
    requires Fits(plan, |file|) && 1 <= n <= plan.partCount && SliceOf(file, plan, n, body)
    ensures 0 <= End(plan, |file|, n - 1) <= End(plan, |file|, n) <= |file|
    ensures body == file[End(plan, |file|, n - 1)..End(plan, |file|, n)]
  {
    OffsetInFile(plan, |file|, n);
  }

  /** The client's slices, in part order, are the file. */
  lemma {:induction false} SlicesTile(file: seq<bv8>, parts: map<nat, seq<bv8>>, plan: Plan, k: nat)
    requires Fits(plan, |file|) && k <= plan.partCount
    requires forall n :: 1 <= n <= plan.partCount ==> n in parts && SliceOf(file, plan, n, parts[n])
    ensures 0 <= End(plan, |file|, k) <= |file| && Assemble(parts, k) == file[..End(plan, |file|, k)]
  {
    if k > 0 {
      SlicesTile(file, parts, plan, k - 1);
      SliceBounds(file, plan, k, parts[k]);
      var from, until := End(plan, |file|, k - 1), End(plan, |file|, k);
      assert file[..from] + file[from..until] == file[..until];
    }
  }
}
