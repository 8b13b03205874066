/** Whose tokens the auth service issues, and that those of a living family do work. */
module AuthIdentity {
  import opened Auth
  import opened AuthRuns

  /** Every row and every access token of a family names the user whose login opened the family. */
  ghost predicate Owned(s: State) {
    && (forall a :: a in s.minted ==> a.family in s.openedBy && s.openedBy[a.family] == a.user)
    && (forall t :: t in s.db.refresh ==> RowIsOwned(s, s.db.refresh[t]))
    && (forall f :: f in s.openedBy ==> FamilyIsUsed(s, f))
  }

  predicate RowIsOwned(s: State, r: RefreshRow) {
    r.family in s.openedBy && s.openedBy[r.family] == r.user
  }

  /** Nothing is revoked or denied but by a kill: rows, the family entry, which lasts one access TTL, and single tokens. */
  ghost predicate Earned(s: State) {
    && (forall t :: t in s.db.refresh && s.db.refresh[t].revoked ==> s.db.refresh[t].family in s.killed)
    && (forall f :: f in s.db.families ==> f in s.killed && s.db.families[f] == s.killed[f] + 600_000)
    && (forall j :: j in s.db.denylist ==> DenialIsEarned(s, j))
  }

  ghost predicate DenialIsEarned(s: State, jti: nat) {
    exists c :: c in s.minted && c.jti == jti && c.family in s.killed
  }

  lemma DenialsStay(s: State, s': State)
    requires s.minted <= s'.minted && s.killed.Keys <= s'.killed.Keys
    ensures forall j :: DenialIsEarned(s, j) ==> DenialIsEarned(s', j)
  {
    forall j | DenialIsEarned(s, j) ensures DenialIsEarned(s', j) {
      var c :| c in s.minted && c.jti == j && c.family in s.killed;
      assert c in s'.minted && c.family in s'.killed;
    }
  }

  /** Rows that were there keep their family and user, and a new one is owned. */
  lemma RowsStayOwned(s: State, s': State)
    requires Owned(s) && s'.openedBy.Keys >= s.openedBy.Keys
    requires forall f :: f in s.openedBy ==> s'.openedBy[f] == s.openedBy[f]
    requires forall t :: t in s'.db.refresh ==> RowIsOwned(s', s'.db.refresh[t]) || Inherits(s, s', t)
    requires forall a :: a in s'.minted && a !in s.minted ==> a.family in s'.openedBy && s'.openedBy[a.family] == a.user
    requires forall f :: f in s'.openedBy && f !in s.openedBy ==> FamilyIsUsed(s', f)
    requires forall t :: t in s.owner ==> t in s'.owner && s'.owner[t] == s.owner[t]
    ensures Owned(s')
  {
    OwnersStay(s, s');
    forall t | t in s'.db.refresh ensures RowIsOwned(s', s'.db.refresh[t]) {
      assert t in s.db.refresh ==> RowIsOwned(s, s.db.refresh[t]);
    }
  }

  predicate Inherits(s: State, s': State, t: nat) {
    t in s.db.refresh && t in s'.db.refresh
    && s'.db.refresh[t].family == s.db.refresh[t].family && s'.db.refresh[t].user == s.db.refresh[t].user
  }

  lemma LoginOwns(s: State, a: Action)
    requires Owned(s) && Enabled(s, a) && a.DoLogin?
    ensures Owned(Next(s, a))
  {
    var s' := Next(s, a);
    assert s'.owner[a.token] == a.family;
    assert forall t :: t in s'.db.refresh && t != a.token ==> Inherits(s, s', t);
    RowsStayOwned(s, s');
  }

  lemma RotationOwns(s: State, a: Action)
    requires Owned(s) && Enabled(s, a) && a.DoRefresh? && Accepts(s.db, a.token, s.now)
    ensures Owned(Next(s, a))
  {
    var s' := Next(s, a);
    assert RowIsOwned(s, s.db.refresh[a.token]);
    assert forall t :: t in s'.db.refresh && t != a.newToken ==> Inherits(s, s', t);
    RowsStayOwned(s, s');
  }

  lemma StepOwns(s: State, a: Action)
    requires Owned(s) && Enabled(s, a)
    ensures Owned(Next(s, a))
  {
    if a.DoLogin? {
      LoginOwns(s, a);
    } else if a.DoRefresh? && Accepts(s.db, a.token, s.now) {
      RotationOwns(s, a);
    } else {
      var s' := Next(s, a);
      assert forall t :: t in s'.db.refresh ==> Inherits(s, s', t);
      RowsStayOwned(s, s');
    }
  }

  lemma LogoutEarns(s: State, a: Action)
    requires Earned(s) && Enabled(s, a) && a.DoLogout?
    ensures Earned(Next(s, a))
  {
    var s' := Next(s, a);
    DenialsStay(s, s');
    assert a.claims in s'.minted && a.claims.family in s'.killed;
    assert DenialIsEarned(s', a.claims.jti);
  }

  lemma RotationEarns(s: State, a: Action)
    requires Earned(s) && Enabled(s, a) && a.DoRefresh? && Accepts(s.db, a.token, s.now)
    ensures Earned(Next(s, a))
  {
    DenialsStay(s, Next(s, a));
  }

  lemma RefusalEarns(s: State, a: Action)
    requires Earned(s) && Enabled(s, a) && a.DoRefresh? && !Accepts(s.db, a.token, s.now)
    ensures Earned(Next(s, a))
  {
    StepAdvances(s, a);
    DenialsStay(s, Next(s, a));
  }

  lemma StepEarns(s: State, a: Action)
    requires Earned(s) && Enabled(s, a)
    ensures Earned(Next(s, a))
  {
    if a.DoLogout? {
      LogoutEarns(s, a);
    } else if a.DoRefresh? {
      if Accepts(s.db, a.token, s.now) {
        RotationEarns(s, a);
      } else {
        RefusalEarns(s, a);
      }
    } else {
      StepAdvances(s, a);
      DenialsStay(s, Next(s, a));
    }
  }

  lemma {:induction false} RunOwns(run: seq<State>, i: nat)
    requires IsRun(run) && i < |run|
    ensures Owned(run[i]) && Earned(run[i])
  {
    if i > 0 {
      RunOwns(run, i - 1);
      assert StepAt(run, i - 1);
      var a :| Enabled(run[i - 1], a) && run[i] == Next(run[i - 1], a);
      StepOwns(run[i - 1], a);
      StepEarns(run[i - 1], a);
    }
  }

  lemma {:induction false} OpenedStays(run: seq<State>, i: nat, j: nat, family: nat)
    requires IsRun(run) && i <= j < |run| && family in run[i].openedBy
    ensures family in run[j].openedBy && run[j].openedBy[family] == run[i].openedBy[family]
    decreases j
  {
    if i < j {
      OpenedStays(run, i, j - 1, family);
      RunOwns(run, j - 1);
      assert StepAt(run, j - 1);
      var a :| Enabled(run[j - 1], a) && run[j] == Next(run[j - 1], a);
      OpenedSurvives(run[j - 1], a, family);
    }
  }

  lemma OpenedSurvives(s: State, a: Action, family: nat)
    requires Owned(s) && Enabled(s, a) && family in s.openedBy
    ensures family in Next(s, a).openedBy && Next(s, a).openedBy[family] == s.openedBy[family]
  {
  }

  /** Whoever logs in, every refresh row and access token its family ever gets names that user. */
  lemma FamilyNamesItsUser(run: seq<State>, i: nat, j: nat, user: nat, family: nat, token: nat, jti: nat, v: Victims)
    requires IsRun(run) && i < j < |run| && run[i + 1] == Next(run[i], DoLogin(user, family, token, jti, v))
    ensures forall a :: a in run[j].minted && a.family == family ==> a.user == user
    ensures forall t :: t in run[j].db.refresh && run[j].db.refresh[t].family == family ==> run[j].db.refresh[t].user == user
  {
    OpenedStays(run, i + 1, j, family);
    RunOwns(run, j);
    assert forall t :: t in run[j].db.refresh ==> RowIsOwned(run[j], run[j].db.refresh[t]);
  }

  /**
   * In every reachable state, the tokens of a family nobody killed work: an access token authenticates exactly until
   * it expires, and a stored refresh token is accepted exactly while it is unused, unexpired and its user has a role.
   */
  lemma UnkilledTokensWork(run: seq<State>, i: nat, family: nat)
    requires IsRun(run) && i < |run| && family !in run[i].killed
    ensures forall a :: a in run[i].minted && a.family == family ==>
              (Authenticates(run[i].db, a, run[i].now) <==> run[i].now / 1000 < a.exp)
    ensures forall t :: t in run[i].db.refresh && run[i].db.refresh[t].family == family ==>
              (Accepts(run[i].db, t, run[i].now) <==>
                 !run[i].db.refresh[t].used && run[i].now < run[i].db.refresh[t].expiresAt
                 && run[i].db.refresh[t].user in run[i].db.roles && run[i].db.roles[run[i].db.refresh[t].user])
  {
    var s := run[i];
    RunKeeps(run, i);
    RunOwns(run, i);
    assert forall a :: a in s.minted && DenialIsEarned(s, a.jti) ==> a.family in s.killed;
  }
}
