/** Whole runs of the auth service: logins, refreshes, logouts, sweeps and user changes in any order, on one clock. */
module AuthRuns {
  import opened Auth

  datatype State = State(
    now: nat,
    db: Db,
    // history, read by no action
    minted: set<Access>,           // every access token ever signed
    owner: map<nat, nat>,          // every refresh token ever issued, with its family
    openedBy: map<nat, nat>,       // every family, with the user whose login opened it
    killed: map<nat, nat>,         // families hit by a logout or a detected reuse, with the last such time
    accepted: seq<nat>)            // refresh tokens that were rotated, in order

  datatype Action =
    | Wait(to: nat)
    | DoLogin(user: nat, family: nat, token: nat, jti: nat, v: Victims)
    | DoRefresh(token: nat, newToken: nat, newJti: nat)
    | DoLogout(claims: Access, v: Victims)
    | SetRole(user: nat, valid: bool)
    | DeleteUser(user: nat)

  ghost predicate FamilyIsUsed(s: State, family: nat) {
    exists t :: t in s.owner && s.owner[t] == family
  }

  predicate FreshJti(s: State, jti: nat) {
    forall a | a in s.minted :: a.jti != jti
  }

  ghost predicate Enabled(s: State, a: Action) {
    match a
    case Wait(to) => s.now <= to
    case DoLogin(user, family, token, jti, v) =>
      && HasRole(s.db, user) && !FamilyIsUsed(s, family) && token !in s.owner && FreshJti(s, jti)
      && Sweepable(s.db, s.now, v)
    case DoRefresh(_, newToken, newJti) => newToken !in s.owner && FreshJti(s, newJti)
    case DoLogout(claims, v) => claims in s.minted && Sweepable(Revoked(s.db, claims, s.now), s.now, v)
    case SetRole(_, _) => true
    case DeleteUser(_) => true
  }

  ghost function Next(s: State, a: Action): State {
    match a
    case Wait(to) => s.(now := to)
    case DoLogin(user, family, token, jti, v) =>
      s.(db := InsertPair(Sweep(s.db, v), user, family, s.now, token),
         minted := s.minted + {Sign(jti, family, user, s.now)},
         owner := s.owner[token := family], openedBy := s.openedBy[family := user])
    case DoRefresh(token, newToken, newJti) =>
      var (db, outcome) := Refresh(s.db, token, s.now, newToken, newJti);
      match outcome {
        case Reject => s.(db := db)
        case Reuse(family) => s.(db := db, killed := s.killed[family := s.now])
        case Rotated(_, access) =>
          s.(db := db, minted := s.minted + {access},
             owner := s.owner[newToken := access.family], accepted := s.accepted + [token])
      }
    case DoLogout(claims, v) =>
      s.(db := Sweep(Revoked(s.db, claims, s.now), v), killed := s.killed[claims.family := s.now])
    case SetRole(user, valid) => s.(db := s.db.(roles := s.db.roles[user := valid]))
    case DeleteUser(user) =>
      s.(db := s.db.(roles := s.db.roles - {user},
                     refresh := map t | t in s.db.refresh && s.db.refresh[t].user != user :: s.db.refresh[t]))
  }

  predicate Init(s: State) {
    s.db.refresh == map[] && s.db.families == map[] && s.db.denylist == map[]
    && s.minted == {} && s.owner == map[] && s.openedBy == map[] && s.killed == map[] && s.accepted == []
  }

  ghost predicate IsRun(run: seq<State>) {
    && |run| > 0 && Init(run[0])
    && forall i :: 0 <= i < |run| - 1 ==> StepAt(run, i)
  }

  ghost predicate StepAt(run: seq<State>, i: nat)
    requires i + 1 < |run|
  {
    exists a :: Enabled(run[i], a) && run[i + 1] == Next(run[i], a)
  }

  // ---- What every step keeps ----

  predicate RowIsIssued(s: State, t: nat) {
    t in s.db.refresh ==> t in s.owner && s.owner[t] == s.db.refresh[t].family
  }

  predicate TokenIsShort(s: State, a: Access) {
    a.exp <= s.now / 1000 + ACCESS_TTL_SEC
  }

  predicate Live(r: RefreshRow) { !r.used && !r.revoked }

  /** At most one refresh row of a family is neither used nor revoked. */
  ghost predicate OneLiveToken(s: State) {
    forall t, u | t in s.db.refresh && u in s.db.refresh && Live(s.db.refresh[t]) && Live(s.db.refresh[u]) ::
      s.db.refresh[t].family == s.db.refresh[u].family ==> t == u
  }

  ghost predicate AcceptedOnce(s: State) {
    && (forall i, j :: 0 <= i < j < |s.accepted| ==> s.accepted[i] != s.accepted[j])
    && (forall i :: 0 <= i < |s.accepted| ==>
          s.accepted[i] in s.owner && (s.accepted[i] in s.db.refresh ==> s.db.refresh[s.accepted[i]].used))
  }

  /** A killed family: no row of it can be used, and its denylist row outlives every token it ever had. */
  ghost predicate Dead(s: State, family: nat, at: nat) {
    && at <= s.now
    && FamilyIsUsed(s, family)
    && (forall t :: t in s.db.refresh && s.db.refresh[t].family == family ==> s.db.refresh[t].revoked)
    && (forall a :: a in s.minted && a.family == family ==> a.exp <= at / 1000 + ACCESS_TTL_SEC)
    && (s.now < at + ACCESS_TTL_SEC * 1000 ==>
          family in s.db.families && s.db.families[family] >= at + ACCESS_TTL_SEC * 1000)
  }

  /** A jti names one minted token. */
  ghost predicate JtisAreUnique(s: State) {
    forall a, b | a in s.minted && b in s.minted :: a.jti == b.jti ==> a == b
  }

  ghost predicate Inv(s: State) {
    && (forall t :: t in s.db.refresh ==> RowIsIssued(s, t))
    && (forall a :: a in s.minted ==> TokenIsShort(s, a) && FamilyIsUsed(s, a.family))
    && JtisAreUnique(s)
    && OneLiveToken(s)
    && AcceptedOnce(s)
    && (forall f :: f in s.killed ==> Dead(s, f, s.killed[f]))
  }

  lemma InitEstablishes(s: State)
    requires Init(s)
    ensures Inv(s)
  {
  }

  lemma OwnersStay(s: State, s': State)
    requires forall t :: t in s.owner ==> t in s'.owner && s'.owner[t] == s.owner[t]
    ensures forall f :: FamilyIsUsed(s, f) ==> FamilyIsUsed(s', f)
  {
    forall f | FamilyIsUsed(s, f) ensures FamilyIsUsed(s', f) {
      var t :| t in s.owner && s.owner[t] == f;
      assert s'.owner[t] == f;
    }
  }

  /** Login starts a family nobody has used, so it joins no killed one. */
  lemma LoginKeeps(s: State, a: Action)
    requires Inv(s) && Enabled(s, a) && a.DoLogin?
    ensures Inv(Next(s, a))
  {
    var s' := Next(s, a);
    OwnersStay(s, s');
    assert s'.owner[a.token] == a.family;
    forall f | f in s'.killed ensures Dead(s', f, s'.killed[f]) {
      assert Dead(s, f, s.killed[f]);
    }
  }

  /** Rotation moves the one live token of its family along; a rotating family cannot be a killed one. */
  lemma RotationKeeps(s: State, a: Action)
    requires Inv(s) && Enabled(s, a) && a.DoRefresh? && Accepts(s.db, a.token, s.now)
    ensures Inv(Next(s, a))
  {
    var s' := Next(s, a);
    var family := s.db.refresh[a.token].family;
    OwnersStay(s, s');
    assert RowIsIssued(s, a.token);
    assert s'.owner[a.newToken] == family;
    forall f | f in s'.killed ensures Dead(s', f, s'.killed[f]) {
      assert Dead(s, f, s.killed[f]);
    }
  }

  /** Reuse and logout kill the family, all of whose access tokens expire within ACCESS_TTL. */
  lemma KillKeeps(s: State, s': State, family: nat, v: Victims)
    requires Inv(s) && FamilyIsUsed(s, family)
    requires s' == s.(db := s'.db, killed := s.killed[family := s.now])
    requires s'.db.refresh == RevokeFamily(s.db, family, s.now).refresh - v.refresh
    requires s'.db.families == RevokeFamily(s.db, family, s.now).families - v.families
    requires forall f :: f in v.families ==>
               f in RevokeFamily(s.db, family, s.now).families && RevokeFamily(s.db, family, s.now).families[f] <= s.now
    ensures Inv(s')
  {
    OwnersStay(s, s');
    forall t | t in s'.db.refresh ensures RowIsIssued(s', t) {
      assert RowIsIssued(s, t);
    }
    forall f | f in s'.killed ensures Dead(s', f, s'.killed[f]) {
      assert f != family ==> Dead(s, f, s.killed[f]);
    }
  }

  lemma StepKeeps(s: State, a: Action)
    requires Inv(s) && Enabled(s, a)
    ensures Inv(Next(s, a))
  {
    match a
    case DoLogin(_, _, _, _, _) => LoginKeeps(s, a);
    case DoRefresh(token, _, _) =>
      if Accepts(s.db, token, s.now) {
        RotationKeeps(s, a);
      } else if token in s.db.refresh && s.db.refresh[token].used && !s.db.refresh[token].revoked {
        assert RowIsIssued(s, token);
        KillKeeps(s, Next(s, a), s.db.refresh[token].family, Victims({}, {}, {}));
      }
    case DoLogout(claims, v) => KillKeeps(s, Next(s, a), claims.family, v);
    case _ => UserStepKeeps(s, a);
  }

  lemma UserStepKeeps(s: State, a: Action)
    requires Inv(s) && Enabled(s, a) && (a.Wait? || a.SetRole? || a.DeleteUser?)
    ensures Inv(Next(s, a))
  {
    var s' := Next(s, a);
    OwnersStay(s, s');
    forall f | f in s'.killed ensures Dead(s', f, s'.killed[f]) {
      assert Dead(s, f, s.killed[f]);
    }
  }

  // ---- What holds of every run ----

  lemma {:induction false} RunKeeps(run: seq<State>, i: nat)
    requires IsRun(run) && i < |run|
    ensures Inv(run[i])
  {
    if i == 0 {
      InitEstablishes(run[0]);
    } else {
      RunKeeps(run, i - 1);
      assert StepAt(run, i - 1);
      var a :| Enabled(run[i - 1], a) && run[i] == Next(run[i - 1], a);
      StepKeeps(run[i - 1], a);
    }
  }

  /** The clock never goes back, a killed family stays killed, and the record of accepted tokens only grows. */
  ghost predicate Later(s: State, s': State) {
    s.now <= s'.now && s.killed.Keys <= s'.killed.Keys && s.accepted <= s'.accepted && s.minted <= s'.minted
  }

  lemma {:induction false} RunAdvances(run: seq<State>, i: nat, j: nat)
    requires IsRun(run) && i <= j < |run|
    ensures Later(run[i], run[j])
  {
    if i < j {
      RunAdvances(run, i, j - 1);
      assert StepAt(run, j - 1);
      var a :| Enabled(run[j - 1], a) && run[j] == Next(run[j - 1], a);
      StepAdvances(run[j - 1], a);
    }
  }

  lemma StepAdvances(s: State, a: Action)
    requires Enabled(s, a)
    ensures Later(s, Next(s, a))
  {
  }

  /**
   * Revocation is final: once logout or a detected reuse has committed for a family, no access token of the
   * family authenticates and no refresh token of it is accepted, at any later point of any run, although the
   * denylist row is swept after ACCESS_TTL.
   */
  lemma RevocationIsFinal(run: seq<State>, i: nat, j: nat, family: nat)
    requires IsRun(run) && i <= j < |run| && family in run[i].killed
    ensures forall a :: a in run[j].minted && a.family == family ==> !Authenticates(run[j].db, a, run[j].now)
    ensures forall t :: t in run[j].owner && run[j].owner[t] == family ==> !Accepts(run[j].db, t, run[j].now)
  {
    var s := run[j];
    RunAdvances(run, i, j);
    RunKeeps(run, j);
    var at := s.killed[family];
    assert Dead(s, family, at);
    forall a | a in s.minted && a.family == family ensures !Authenticates(s.db, a, s.now) {
      if s.now >= at + ACCESS_TTL_SEC * 1000 {
        assert s.now / 1000 >= at / 1000 + ACCESS_TTL_SEC;
      }
    }
    forall t | t in s.owner && s.owner[t] == family ensures !Accepts(s.db, t, s.now) {
      assert t in s.db.refresh ==> RowIsIssued(s, t);
    }
  }

  /** No step mints into a killed family: what joins `minted` later belongs to families alive at that moment. */
  lemma NothingIsMintedAfterKill(run: seq<State>, i: nat, j: nat, family: nat, a: Access)
    requires IsRun(run) && i <= j < |run| && family in run[i].killed
    requires a in run[j].minted && a.family == family
    ensures a in run[i].minted
    decreases j
  {
    if i < j {
      RunAdvances(run, i, j - 1);
      RunKeeps(run, j - 1);
      assert StepAt(run, j - 1);
      var act :| Enabled(run[j - 1], act) && run[j] == Next(run[j - 1], act);
      MintingFamilyIsAlive(run[j - 1], act, a);
      NothingIsMintedAfterKill(run, i, j - 1, family, a);
    }
  }

  lemma MintingFamilyIsAlive(s: State, act: Action, a: Access)
    requires Inv(s) && Enabled(s, act) && a.family in s.killed && a in Next(s, act).minted
    ensures a in s.minted
  {
    assert Dead(s, a.family, s.killed[a.family]);
  }

  /** The chain of a family has one live end, and each refresh token is accepted at most once in the whole run. */
  lemma RotationIsAChain(run: seq<State>, i: nat)
    requires IsRun(run) && i < |run|
    ensures OneLiveToken(run[i])
    ensures forall k, l :: 0 <= k < l < |run[i].accepted| ==> run[i].accepted[k] != run[i].accepted[l]
    ensures forall k :: 0 <= k < |run[i].accepted| ==> !Accepts(run[i].db, run[i].accepted[k], run[i].now)
  {
    RunKeeps(run, i);
  }

  /** Presenting a used, still stored token of a living family kills every descendant for the rest of the run. */
  lemma ReplayKillsDescendants(run: seq<State>, i: nat, j: nat, token: nat, newToken: nat, newJti: nat, t: nat)
    requires IsRun(run) && i + 1 <= j < |run|
    requires token in run[i].db.refresh && run[i].db.refresh[token].used && !run[i].db.refresh[token].revoked
    requires run[i + 1] == Next(run[i], DoRefresh(token, newToken, newJti))
    requires t in run[j].owner && run[j].owner[t] == run[i].db.refresh[token].family
    ensures !Accepts(run[j].db, t, run[j].now)
    ensures forall a :: a in run[j].minted && a.family == run[i].db.refresh[token].family ==>
              !Authenticates(run[j].db, a, run[j].now)
  {
    RevocationIsFinal(run, i + 1, j, run[i].db.refresh[token].family);
  }

  /** The family a login, refresh or logout acts on; a refresh of an unknown token acts on none. */
  predicate ActsOn(s: State, a: Action, family: nat) {
    match a
    case DoLogin(_, f, _, _, _) => f == family
    case DoRefresh(token, _, _) => OfFamily(s.db, token, family)
    case DoLogout(claims, _) => claims.family == family
    case _ => false
  }

  function JtisOf(s: State, family: nat): set<nat> {
    set a | a in s.minted && a.family == family :: a.jti
  }

  /**
   * In every reachable state, a login, refresh or logout, sweep included, changes no answer about any token that
   * another family has been issued, now or at any later time.
   */
  lemma FamiliesDoNotInterfere(run: seq<State>, i: nat, a: Action, other: nat, later: nat)
    requires IsRun(run) && i < |run| && run[i].now <= later
    requires (a.DoLogin? || a.DoRefresh? || a.DoLogout?) && Enabled(run[i], a) && !ActsOn(run[i], a, other)
    ensures forall t :: t in run[i].owner && run[i].owner[t] == other ==>
              Accepts(Next(run[i], a).db, t, later) == Accepts(run[i].db, t, later)
    ensures forall c :: c in run[i].minted && c.family == other ==>
              Authenticates(Next(run[i], a).db, c, later) == Authenticates(run[i].db, c, later)
  {
    RunKeeps(run, i);
    var s := run[i];
    if a.DoLogin? {
      LoginLeavesOthers(s, a, other, later);
    } else if a.DoRefresh? {
      RefreshLeavesOthers(s, a, other, later);
    } else {
      LogoutLeavesOthers(s, a, other, later);
    }
  }

  /** No token of the family gets another answer from `db'` than from the state's own database. */
  ghost predicate SameAnswers(s: State, db': Db, family: nat, later: nat) {
    && (forall t :: t in s.owner && s.owner[t] == family ==> Accepts(db', t, later) == Accepts(s.db, t, later))
    && (forall c :: c in s.minted && c.family == family ==> Authenticates(db', c, later) == Authenticates(s.db, c, later))
  }

  lemma RowsOfFamily(s: State, db': Db, added: set<nat>, family: nat, later: nat)
    requires Inv(s) && added !! s.owner.Keys && db'.refresh.Keys <= s.db.refresh.Keys + added
    requires forall t | OfFamily(s.db, t, family) :: Accepts(db', t, later) == Accepts(s.db, t, later)
    ensures forall t :: t in s.owner && s.owner[t] == family ==> Accepts(db', t, later) == Accepts(s.db, t, later)
  {
    forall t | t in s.owner && s.owner[t] == family ensures Accepts(db', t, later) == Accepts(s.db, t, later) {
      assert t in s.db.refresh ==> RowIsIssued(s, t);
      assert t !in s.db.refresh ==> t !in db'.refresh;
    }
  }

  lemma LoginLeavesOthers(s: State, a: Action, other: nat, later: nat)
    requires Inv(s) && a.DoLogin? && Enabled(s, a) && a.family != other && s.now <= later
    ensures SameAnswers(s, Next(s, a).db, other, later)
  {
    var swept, jtis := Sweep(s.db, a.v), JtisOf(s, other);
    SweepKeepsAnswers(s.db, s.now, a.v, later);
    assert a.token in s.db.refresh ==> RowIsIssued(s, a.token);
    FamiliesAreIndependent(swept, a.token, Sign(a.jti, a.family, a.user, s.now), a.user, a.family, s.now, a.token, a.jti, other, jtis);
    SameViewSameAnswers(swept, Next(s, a).db, other, jtis, later);
    RowsOfFamily(s, Next(s, a).db, {a.token}, other, later);
  }

  lemma RefreshLeavesOthers(s: State, a: Action, other: nat, later: nat)
    requires Inv(s) && a.DoRefresh? && Enabled(s, a) && !OfFamily(s.db, a.token, other)
    ensures SameAnswers(s, Next(s, a).db, other, later)
  {
    var jtis := JtisOf(s, other);
    assert a.newToken in s.db.refresh ==> RowIsIssued(s, a.newToken);
    FamiliesAreIndependent(s.db, a.token, Access(0, 0, 0, 0), 0, 0, s.now, a.newToken, a.newJti, other, jtis);
    SameViewSameAnswers(s.db, Next(s, a).db, other, jtis, later);
    RowsOfFamily(s, Next(s, a).db, {a.newToken}, other, later);
  }

  lemma LogoutLeavesOthers(s: State, a: Action, other: nat, later: nat)
    requires Inv(s) && a.DoLogout? && Enabled(s, a) && a.claims.family != other && s.now <= later
    ensures SameAnswers(s, Next(s, a).db, other, later)
  {
    var revoked, jtis := Revoked(s.db, a.claims, s.now), JtisOf(s, other);
    FamiliesAreIndependent(s.db, 0, a.claims, 0, 0, s.now, 0, 0, other, jtis);
    SameViewSameAnswers(s.db, revoked, other, jtis, later);
    SweepKeepsAnswers(revoked, s.now, a.v, later);
    RowsOfFamily(s, Next(s, a).db, {}, other, later);
  }

  /** A row that has not expired is never swept: the theft signal lasts at least as long as the stolen token would. */
  lemma UnexpiredRowsStay(s: State, a: Action, token: nat)
    requires Enabled(s, a) && !a.DeleteUser? && token in s.db.refresh && s.db.refresh[token].expiresAt > s.now
    requires Inv(s)
    ensures token in Next(s, a).db.refresh && Next(s, a).db.refresh[token].expiresAt == s.db.refresh[token].expiresAt
    ensures s.db.refresh[token].used ==> Next(s, a).db.refresh[token].used
  {
    assert RowIsIssued(s, token);
  }

  lemma ExtendRun(run: seq<State>, a: Action) returns (longer: seq<State>)
    requires IsRun(run) && Enabled(run[|run| - 1], a)
    ensures longer == run + [Next(run[|run| - 1], a)] && IsRun(longer)
  {
    longer := run + [Next(run[|run| - 1], a)];
    forall i | 0 <= i < |longer| - 1 ensures StepAt(longer, i) {
      if i < |run| - 1 {
        assert StepAt(run, i);
        var b :| Enabled(run[i], b) && run[i + 1] == Next(run[i], b);
        assert Enabled(longer[i], b) && longer[i + 1] == Next(longer[i], b);
      } else {
        assert Enabled(longer[i], a) && longer[i + 1] == Next(longer[i], a);
      }
    }
  }

  /** Two tokens of family 7, the first one used and expired at this very moment. */
  ghost predicate RotatedAndWaited(s: State, user: nat) {
    && s.now == REFRESH_TTL_SEC * 1000 && HasRole(s.db, user)
    && s.db.refresh == map[1 := RefreshRow(7, user, s.now, true, false), 2 := RefreshRow(7, user, s.now + 1, false, false)]
    && s.owner == map[1 := 7, 2 := 7] && forall a :: a in s.minted ==> a.jti == 11 || a.jti == 12
  }

  /** A login at 0, its rotation at 1, and a wait. */
  lemma RotateAndWait(start: State, user: nat) returns (run: seq<State>)
    requires Init(start) && start.now == 0 && HasRole(start.db, user)
    ensures |run| == 5 && run[0] == start && IsRun(run) && RotatedAndWaited(run[4], user)
  {
    var login := DoLogin(user, 7, 1, 11, Victims({}, {}, {}));
    assert Enabled(start, login);
    var one := Next(start, login);
    assert one.db.refresh == map[1 := RefreshRow(7, user, REFRESH_TTL_SEC * 1000, false, false)] && one.owner == map[1 := 7];
    run := ExtendRun([start], login);
    run := ExtendRun(run, Wait(1));
    assert Enabled(run[2], DoRefresh(1, 2, 12)) && Accepts(run[2].db, 1, 1);
    run := ExtendRun(run, DoRefresh(1, 2, 12));
    run := ExtendRun(run, Wait(REFRESH_TTL_SEC * 1000));
  }

  /** A second login that sweeps token 1 or nothing, then the replay of token 1. */
  lemma SweepAndReplay(run: seq<State>, user: nat, victims: set<nat>) returns (longer: seq<State>)
    requires |run| == 5 && IsRun(run) && RotatedAndWaited(run[4], user) && victims <= {1}
    ensures |longer| == 7 && IsRun(longer) && longer[..5] == run
    ensures longer[5] == Next(run[4], DoLogin(user, 8, 3, 13, Victims(victims, {}, {})))
    ensures longer[6] == Next(longer[5], DoRefresh(1, 4, 14))
  {
    var s, login := run[4], DoLogin(user, 8, 3, 13, Victims(victims, {}, {}));
    assert forall t :: t in s.owner ==> s.owner[t] == 7;
    assert Enabled(s, login);
    longer := ExtendRun(run, login);
    longer := ExtendRun(longer, DoRefresh(1, 4, 14));
  }

  /** The replay's outcome turns on whether the used row is still there. */
  lemma ReplayOutcome(s: State, user: nat, victims: set<nat>)
    requires RotatedAndWaited(s, user) && victims <= {1}
    ensures var before := Next(s, DoLogin(user, 8, 3, 13, Victims(victims, {}, {})));
            var after := Next(before, DoRefresh(1, 4, 14));
            && (1 in before.db.refresh <==> 1 !in victims)
            && (1 in before.db.refresh ==> before.db.refresh[1].used)
            && 2 in before.owner && 1 in before.owner && before.owner[1] == before.owner[2]
            && after.accepted == before.accepted
            && (Accepts(after.db, 2, after.now) <==> 1 in victims)
  {
  }

  /**
   * Once the used row is swept the theft signal is gone. From any start at time 0 there are two runs, alike up to
   * what the second login sweeps: where it sweeps token 1 the replay is refused and token 2 stays usable, where it
   * sweeps nothing the same replay kills token 2.
   */
  lemma SweptReplayGoesUnnoticed(start: State, user: nat) returns (swept: seq<State>, kept: seq<State>)
    requires Init(start) && start.now == 0 && HasRole(start.db, user)
    ensures |swept| == |kept| == 7 && IsRun(swept) && IsRun(kept) && swept[..5] == kept[..5] && swept[0] == start
    ensures swept[6] == Next(swept[5], DoRefresh(1, 4, 14)) && kept[6] == Next(kept[5], DoRefresh(1, 4, 14))
    ensures 1 in kept[5].db.refresh && kept[5].db.refresh[1].used
    ensures 1 in kept[5].owner && 2 in kept[5].owner && kept[5].owner[1] == kept[5].owner[2]
    ensures 1 !in swept[5].db.refresh && swept[6].accepted == swept[5].accepted
    ensures Accepts(swept[6].db, 2, swept[6].now) && !Accepts(kept[6].db, 2, kept[6].now)
  {
    var run := RotateAndWait(start, user);
    swept := SweepAndReplay(run, user, {1});
    kept := SweepAndReplay(run, user, {});
    ReplayOutcome(run[4], user, {1});
    ReplayOutcome(run[4], user, {});
  }
}
