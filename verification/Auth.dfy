/**
 * Refresh-token families: rotation, reuse detection, logout and the timed denylist. Database times are
 * milliseconds; the `exp` claim of an access token is in whole seconds, as signed. A refresh token is named
 * by its row (the hash is injective), and generated ids are fresh.
 */
module Auth {
  import opened Common

  const ACCESS_TTL_SEC: nat := 10 * 60
  const REFRESH_TTL_SEC: nat := 30 * 24 * 60 * 60
  const SWEEP_BATCH: nat := 500

  datatype RefreshRow = RefreshRow(family: nat, user: nat, expiresAt: nat, used: bool, revoked: bool)

  datatype Access = Access(jti: nat, family: nat, user: nat, exp: nat)

  /** refresh_tokens, revoked_families, access_denylist, and for each user whether the role is a valid one. */
  datatype Db = Db(refresh: map<nat, RefreshRow>, families: map<nat, nat>, denylist: map<nat, nat>, roles: map<nat, bool>)

  datatype Outcome = Reject | Reuse(family: nat) | Rotated(token: nat, access: Access)

  /** The rows one sweep removes from each of the three tables. */
  datatype Victims = Victims(refresh: set<nat>, denylist: set<nat>, families: set<nat>)

  function RevokeFamily(db: Db, family: nat, now: nat): Db {
    db.(refresh := map t | t in db.refresh ::
          if db.refresh[t].family == family then db.refresh[t].(revoked := true) else db.refresh[t],
        families := db.families[family := now + ACCESS_TTL_SEC * 1000])
  }

  function Sign(jti: nat, family: nat, user: nat, now: nat): Access {
    Access(jti, family, user, now / 1000 + ACCESS_TTL_SEC)
  }

  function InsertPair(db: Db, user: nat, family: nat, now: nat, token: nat): Db {
    db.(refresh := db.refresh[token := RefreshRow(family, user, now + REFRESH_TTL_SEC * 1000, false, false)])
  }

  predicate HasRole(db: Db, user: nat) {
    user in db.roles && db.roles[user]
  }

  function Refresh(db: Db, token: nat, now: nat, newToken: nat, newJti: nat): (Db, Outcome) {
    if token !in db.refresh || db.refresh[token].revoked then (db, Reject)
    else
      var row := db.refresh[token];
      if row.used then (RevokeFamily(db, row.family, now), Reuse(row.family))
      else if row.expiresAt <= now || !HasRole(db, row.user) then (db, Reject)
      else
        var marked := db.(refresh := db.refresh[token := row.(used := true)]);
        (InsertPair(marked, row.user, row.family, now, newToken),
         Rotated(newToken, Sign(newJti, row.family, row.user, now)))
  }

  function Sweep(db: Db, v: Victims): Db {
    db.(refresh := db.refresh - v.refresh, denylist := db.denylist - v.denylist, families := db.families - v.families)
  }

  /** A sweep takes expired rows only. */
  predicate Sweepable(db: Db, now: nat, v: Victims) {
    && (forall t :: t in v.refresh ==> t in db.refresh && db.refresh[t].expiresAt <= now)
    && (forall j :: j in v.denylist ==> j in db.denylist && db.denylist[j] <= now)
    && (forall f :: f in v.families ==> f in db.families && db.families[f] <= now)
  }

  /** Everything logout does before its sweep. */
  function Revoked(db: Db, claims: Access, now: nat): Db {
    var revoked := RevokeFamily(db, claims.family, now);
    revoked.(denylist := revoked.denylist[claims.jti := claims.exp * 1000])
  }

  /** jwt.verify: the clock is read in whole seconds, and a token dies the second its `exp` is reached. */
  predicate Verifies(a: Access, now: nat) {
    now / 1000 < a.exp
  }

  predicate IsAccessRevoked(db: Db, a: Access, now: nat) {
    || (a.family in db.families && db.families[a.family] > now)
    || (a.jti in db.denylist && db.denylist[a.jti] > now)
  }

  predicate Authenticates(db: Db, a: Access, now: nat) {
    Verifies(a, now) && !IsAccessRevoked(db, a, now)
  }

  predicate Accepts(db: Db, token: nat, now: nat) {
    token in db.refresh && !db.refresh[token].revoked && !db.refresh[token].used
    && db.refresh[token].expiresAt > now && HasRole(db, db.refresh[token].user)
  }

  lemma AcceptsMeansRotates(db: Db, token: nat, now: nat, newToken: nat, newJti: nat)
    ensures Refresh(db, token, now, newToken, newJti).1.Rotated? <==> Accepts(db, token, now)
  {
  }

  /** A denylist row of this life, written at `revoked`, is gone by `now` only if the token minted before it is dead too. */
  predicate Outlived(life: nat, minted: nat, revoked: nat, now: nat) {
    minted <= revoked && revoked + life <= now ==> !Verifies(Sign(0, 0, 0, minted), now)
  }

  /** The denylist row may live for exactly ACCESS_TTL: with any shorter life some token outlives its row. */
  lemma DenylistLifeIsExact(life: nat)
    ensures (forall minted: nat, revoked: nat, now: nat :: Outlived(life, minted, revoked, now))
            <==> life >= ACCESS_TTL_SEC * 1000
  {
    if life < ACCESS_TTL_SEC * 1000 {
      assert !Outlived(life, 0, 0, life);
    }
  }

  /** Sweeping changes no immediate answer, now or at any later time. */
  lemma SweepKeepsAnswers(db: Db, now: nat, v: Victims, later: nat)
    requires Sweepable(db, now, v) && now <= later
    ensures forall token :: Accepts(Sweep(db, v), token, later) == Accepts(db, token, later)
    ensures forall a :: Authenticates(Sweep(db, v), a, later) == Authenticates(db, a, later)
  {
  }

  /** A second presentation kills the family exactly when the used row is still stored and not yet revoked. */
  lemma ReuseIsDetectedIffStored(db: Db, token: nat, now: nat, newToken: nat, newJti: nat)
    ensures Refresh(db, token, now, newToken, newJti).1.Reuse? <==>
              token in db.refresh && db.refresh[token].used && !db.refresh[token].revoked
    ensures Refresh(db, token, now, newToken, newJti).1.Reuse? ==>
              forall t :: t in db.refresh && db.refresh[t].family == db.refresh[token].family ==>
                !Accepts(Refresh(db, token, now, newToken, newJti).0, t, now)
  {
  }

  /** What a family can see of the database: its rows, its entry, the roles, and the denial of its own access tokens. */
  ghost predicate SameForFamily(db: Db, db': Db, family: nat, jtis: set<nat>) {
    && (forall t :: t in db'.refresh && db'.refresh[t].family == family ==> t in db.refresh && db.refresh[t] == db'.refresh[t])
    && (forall t :: t in db.refresh && db.refresh[t].family == family ==> t in db'.refresh && db.refresh[t] == db'.refresh[t])
    && (family in db.families <==> family in db'.families)
    && (family in db.families ==> db.families[family] == db'.families[family])
    && (forall j :: j in jtis ==> SameDenial(db, db', j))
    && db.roles == db'.roles
  }

  predicate SameDenial(db: Db, db': Db, jti: nat) {
    (jti in db.denylist <==> jti in db'.denylist) && (jti in db.denylist ==> db.denylist[jti] == db'.denylist[jti])
  }

  predicate OfFamily(db: Db, t: nat, family: nat) {
    t in db.refresh && db.refresh[t].family == family
  }

  /** Login, rotation, reuse and logout in one family leave what another family can see as it was. */
  lemma FamiliesAreIndependent(db: Db, token: nat, claims: Access, user: nat, family: nat, now: nat, newToken: nat, newJti: nat,
                               other: nat, jtis: set<nat>)
    ensures family != other && newToken !in db.refresh ==>
              SameForFamily(db, InsertPair(db, user, family, now, newToken), other, jtis)
    ensures !OfFamily(db, token, other) && newToken !in db.refresh ==>
              SameForFamily(db, Refresh(db, token, now, newToken, newJti).0, other, jtis)
    ensures claims.family != other && claims.jti !in jtis ==> SameForFamily(db, Revoked(db, claims, now), other, jtis)
  {
    if !OfFamily(db, token, other) && newToken !in db.refresh {
      RefreshIsLocal(db, token, now, newToken, newJti, other, jtis);
    }
  }

  lemma RefreshIsLocal(db: Db, token: nat, now: nat, newToken: nat, newJti: nat, other: nat, jtis: set<nat>)
    requires !OfFamily(db, token, other) && newToken !in db.refresh
    ensures SameForFamily(db, Refresh(db, token, now, newToken, newJti).0, other, jtis)
  {
    if token in db.refresh && !db.refresh[token].revoked && db.refresh[token].used {
      assert Refresh(db, token, now, newToken, newJti).0 == RevokeFamily(db, db.refresh[token].family, now);
    }
  }

  /** What a family can see determines every answer about its tokens. */
  lemma SameViewSameAnswers(db: Db, db': Db, family: nat, jtis: set<nat>, now: nat)
    requires SameForFamily(db, db', family, jtis)
    ensures forall t | OfFamily(db, t, family) || OfFamily(db', t, family) :: Accepts(db, t, now) == Accepts(db', t, now)
    ensures forall a: Access | a.family == family && a.jti in jtis :: Authenticates(db, a, now) == Authenticates(db', a, now)
  {
  }

  // ---- The service ----

  /** Some rows of a set, oldest first: no row left behind expires before one taken. */
  predicate Oldest(taken: set<nat>, from: set<nat>, at: map<nat, nat>) {
    taken <= from <= at.Keys && forall t, k :: t in taken && k in from - taken ==> at[t] <= at[k]
  }

  lemma {:induction false} OldestExists(from: set<nat>, at: map<nat, nat>, n: nat) returns (taken: set<nat>)
    requires from <= at.Keys && n <= |from|
    ensures Oldest(taken, from, at) && |taken| == n
    decreases |from|
  {
    if n == |from| {
      taken := from;
    } else {
      var latest := LatestOf(from, at);
      taken := OldestExists(from - {latest}, at, n);
    }
  }

  lemma {:induction false} LatestOf(from: set<nat>, at: map<nat, nat>) returns (latest: nat)
    requires from != {} && from <= at.Keys
    ensures latest in from && forall k :: k in from ==> at[k] <= at[latest]
    decreases |from|
  {
    latest :| latest in from;
    var rest := from - {latest};
    if rest != {} {
      var other := LatestOf(rest, at);
      if at[other] > at[latest] {
        latest := other;
      }
    }
  }

  /** Expired unlocked rows only, at most 500; a row left behind means a full batch, none of which expired later. */
  ghost predicate IsSweepOf(victims: set<nat>, at: map<nat, nat>, now: nat, locked: set<nat>) {
    && victims <= at.Keys && victims !! locked && |victims| <= SWEEP_BATCH
    && (forall k :: k in victims ==> at[k] <= now)
    && (forall k :: k in at && at[k] <= now && k !in locked && k !in victims ==>
          |victims| == SWEEP_BATCH && forall v :: v in victims ==> at[v] <= at[k])
  }

  function ExpiryOf(refresh: map<nat, RefreshRow>): map<nat, nat> {
    map t | t in refresh :: refresh[t].expiresAt
  }

  /** DELETE ... WHERE expires_at <= now ORDER BY expires_at LIMIT 500 FOR UPDATE SKIP LOCKED. */
  method PickExpired(at: map<nat, nat>, now: nat, locked: set<nat>) returns (victims: set<nat>)
    ensures IsSweepOf(victims, at, now, locked)
  {
    var expired := set k | k in at && at[k] <= now && k !in locked;
    ghost var sample := OldestExists(expired, at, Min(SWEEP_BATCH, |expired|));
    assert Oldest(sample, expired, at) && |sample| == Min(SWEEP_BATCH, |expired|);
    victims :| victims <= expired && Oldest(victims, expired, at) && |victims| == Min(SWEEP_BATCH, |expired|);
    assert Oldest(victims, expired, at);
    if |expired| <= SWEEP_BATCH {
      SubsetCardinality(victims, expired);
    }
  }

  class AuthService {
    var db: Db

    method InsertPairTx(user: nat, family: nat, now: nat, token: nat, jti: nat) returns (access: Access)
      modifies this
      ensures db == InsertPair(old(db), user, family, now, token)
      ensures access == Sign(jti, family, user, now)
      ensures access == Access(jti, family, user, now / 1000 + 600)
      ensures db == old(db).(refresh := old(db).refresh[token := RefreshRow(family, user, now + 2_592_000_000, false, false)])
    {
      db := db.(refresh := db.refresh[token := RefreshRow(family, user, now + REFRESH_TTL_SEC * 1000, false, false)]);
      access := Sign(jti, family, user, now);
    }

    method RevokeFamilyTx(family: nat, now: nat)
      modifies this
      ensures db == RevokeFamily(old(db), family, now)
      ensures db.refresh.Keys == old(db).refresh.Keys && forall t :: t in db.refresh ==>
                db.refresh[t] == (if old(db).refresh[t].family == family then old(db).refresh[t].(revoked := true) else old(db).refresh[t])
      ensures db.families == old(db).families[family := now + 600_000]
    {
      db := db.(refresh := map t | t in db.refresh ::
                  if db.refresh[t].family == family then db.refresh[t].(revoked := true) else db.refresh[t]);
      db := db.(families := db.families[family := now + ACCESS_TTL_SEC * 1000]);
    }

    method SweepRefreshTokens(now: nat, locked: set<nat>) returns (victims: set<nat>)
      modifies this
      ensures IsSweepOf(victims, ExpiryOf(old(db).refresh), now, locked)
      ensures db == old(db).(refresh := old(db).refresh - victims)
    {
      victims := PickExpired(ExpiryOf(db.refresh), now, locked);
      db := db.(refresh := db.refresh - victims);
    }

    method SweepDenylist(now: nat, locked: set<nat>) returns (victims: set<nat>)
      modifies this
      ensures IsSweepOf(victims, old(db).denylist, now, locked)
      ensures db == old(db).(denylist := old(db).denylist - victims)
    {
      victims := PickExpired(db.denylist, now, locked);
      db := db.(denylist := db.denylist - victims);
    }

    method SweepFamilies(now: nat, locked: set<nat>) returns (victims: set<nat>)
      modifies this
      ensures IsSweepOf(victims, old(db).families, now, locked)
      ensures db == old(db).(families := old(db).families - victims)
    {
      victims := PickExpired(db.families, now, locked);
      db := db.(families := db.families - victims);
    }

    /** The loop over the three tables; rows other transactions hold are skipped. */
    method SweepExpired(now: nat, locked: Victims) returns (v: Victims)
      modifies this
      ensures Sweepable(old(db), now, v) && db == Sweep(old(db), v)
      ensures IsSweepOf(v.refresh, ExpiryOf(old(db).refresh), now, locked.refresh)
      ensures IsSweepOf(v.denylist, old(db).denylist, now, locked.denylist)
      ensures IsSweepOf(v.families, old(db).families, now, locked.families)
    {
      v := Victims({}, {}, {});
      for table := 0 to 3
        invariant Sweepable(old(db), now, v) && db == Sweep(old(db), v)
        invariant table <= 0 ==> v.refresh == {}
        invariant table <= 1 ==> v.denylist == {}
        invariant table <= 2 ==> v.families == {}
        invariant table > 0 ==> IsSweepOf(v.refresh, ExpiryOf(old(db).refresh), now, locked.refresh)
        invariant table > 1 ==> IsSweepOf(v.denylist, old(db).denylist, now, locked.denylist)
        invariant table > 2 ==> IsSweepOf(v.families, old(db).families, now, locked.families)
      {
        if table == 0 {
          var victims := SweepRefreshTokens(now, locked.refresh);
          v := v.(refresh := victims);
        } else if table == 1 {
          var victims := SweepDenylist(now, locked.denylist);
          v := v.(denylist := victims);
        } else {
          var victims := SweepFamilies(now, locked.families);
          v := v.(families := victims);
        }
      }
    }

    method Login(user: nat, passwordOk: bool, now: nat, family: nat, token: nat, jti: nat, locked: Victims)
      returns (granted: Option<Access>, v: Victims)
      modifies this
      ensures granted.Some? <==> HasRole(old(db), user) && passwordOk
      ensures granted.None? ==> db == old(db)
      ensures granted.Some? ==> Sweepable(old(db), now, v) && granted.value == Sign(jti, family, user, now)
                                && db == InsertPair(Sweep(old(db), v), user, family, now, token)
      ensures granted.Some? ==>
                && granted.value == Access(jti, family, user, now / 1000 + 600)
                && token in db.refresh && db.refresh[token] == RefreshRow(family, user, now + 2_592_000_000, false, false)
                && Accepts(db, token, now)
    {
      v := Victims({}, {}, {});
      if !HasRole(db, user) || !passwordOk {
        return None, v;
      }
      v := SweepExpired(now, locked);
      var access := InsertPairTx(user, family, now, token, jti);
      granted := Some(access);
    }

    method RefreshTx(token: nat, now: nat, newToken: nat, newJti: nat) returns (outcome: Outcome)
      modifies this
      ensures (db, outcome) == Refresh(old(db), token, now, newToken, newJti)
      ensures outcome.Rotated? <==> Accepts(old(db), token, now)
      ensures outcome.Rotated? && newToken != token ==>
                var row := old(db).refresh[token];
                && outcome == Rotated(newToken, Access(newJti, row.family, row.user, now / 1000 + 600))
                && db == old(db).(refresh := old(db).refresh[token := row.(used := true)]
                                                            [newToken := RefreshRow(row.family, row.user, now + 2_592_000_000, false, false)])
                && Accepts(db, newToken, now)
      ensures outcome.Reuse? ==> token in old(db).refresh && outcome.family == old(db).refresh[token].family
                                 && db == RevokeFamily(old(db), outcome.family, now)
      ensures outcome.Reject? ==> db == old(db)
    {
      if token !in db.refresh {
        return Reject;
      }
      var row := db.refresh[token];
      if row.revoked {
        return Reject;
      }
      if row.used {
        RevokeFamilyTx(row.family, now);
        return Reuse(row.family);
      }
      if row.expiresAt <= now || !HasRole(db, row.user) {
        return Reject;
      }
      db := db.(refresh := db.refresh[token := row.(used := true)]);
      var access := InsertPairTx(row.user, row.family, now, newToken, newJti);
      return Rotated(newToken, access);
    }

    method Logout(claims: Access, now: nat, locked: Victims) returns (v: Victims)
      modifies this
      ensures Sweepable(Revoked(old(db), claims, now), now, v)
      ensures db == Sweep(Revoked(old(db), claims, now), v)
      ensures claims.exp * 1000 > now ==> claims.jti in db.denylist && db.denylist[claims.jti] == claims.exp * 1000
      ensures claims.family in db.families && db.families[claims.family] == now + 600_000
      ensures forall t :: t in db.refresh && db.refresh[t].family == claims.family ==> db.refresh[t].revoked
    {
      RevokeFamilyTx(claims.family, now);
      db := db.(denylist := db.denylist[claims.jti := claims.exp * 1000]);
      v := SweepExpired(now, locked);
    }

    method Authenticate(a: Access, now: nat) returns (ok: bool)
      ensures ok <==> Authenticates(db, a, now)
      ensures ok <==> now / 1000 < a.exp && !(a.family in db.families && db.families[a.family] > now)
                      && !(a.jti in db.denylist && db.denylist[a.jti] > now)
    {
      if !Verifies(a, now) {
        return false;
      }
      return !IsAccessRevoked(db, a, now);
    }
  }
}
