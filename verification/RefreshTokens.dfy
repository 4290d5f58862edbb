/** The refresh-token store: tokens, the two index sets that must agree with them and the revocation
    marks, every key with an expiry time. Each operation is atomic; random hashes and family ids never
    repeat. */
module RefreshTokens {
  import opened Basics

  type User = nat
  type Family = nat
  type Hash = nat

  datatype Token = Token(user: User, family: Family, rotated: bool, expires: nat)

  /** A Redis set with a TTL. */
  datatype Index = Index(members: set<nat>, expires: nat)

  /** `issued` and `families` are every hash and family id ever generated. */
  datatype Db = Db(now: nat, tokens: map<Hash, Token>, familyTokens: map<Family, Index>, revoked: map<Family, nat>,
                   userFamilies: map<User, Index>, issued: set<Hash>, families: set<Family>)

  datatype RotateResult = Rotated(user: User) | Reused | Invalid

  /** The key exists and has not expired. */
  predicate Live(s: Db, h: Hash) {
    h in s.tokens && s.now < s.tokens[h].expires
  }

  predicate Active(s: Db, h: Hash) {
    Live(s, h) && !s.tokens[h].rotated
  }

  function Members(indices: map<nat, Index>, key: nat, now: nat): set<nat> {
    if key in indices && now < indices[key].expires then indices[key].members else {}
  }

  /** `SADD` and `EXPIRE`; an expired set starts empty. */
  function Added(indices: map<nat, Index>, key: nat, member: nat, now: nat, ttl: nat): map<nat, Index> {
    indices[key := Index(Members(indices, key, now) + {member}, now + ttl)]
  }

  predicate IsRevoked(s: Db, family: Family) {
    family in s.revoked && s.now < s.revoked[family]
  }

  function IssueInFamily(s: Db, ttl: nat, user: User, family: Family, hash: Hash): Db {
    s.(tokens := s.tokens[hash := Token(user, family, false, s.now + ttl)],
       familyTokens := Added(s.familyTokens, family, hash, s.now, ttl),
       userFamilies := Added(s.userFamilies, user, family, s.now, ttl),
       issued := s.issued + {hash}, families := s.families + {family})
  }

  function RevokeFamily(s: Db, ttl: nat, family: Family): Db {
    s.(tokens := s.tokens - Members(s.familyTokens, family, s.now), revoked := s.revoked[family := s.now + ttl],
       familyTokens := s.familyTokens - {family})
  }

  function RotateOutcome(s: Db, h: Hash): RotateResult {
    if !Live(s, h) then Invalid
    else if s.tokens[h].rotated then Reused
    else if IsRevoked(s, s.tokens[h].family) then Invalid
    else Rotated(s.tokens[h].user)
  }

  function RotateStep(s: Db, ttl: nat, grace: nat, h: Hash, fresher: Hash): Db {
    match RotateOutcome(s, h)
    case Invalid => s
    case Reused => RevokeFamily(s, ttl, s.tokens[h].family)
    case Rotated(user) =>
      var t := s.tokens[h];
      var marked := s.(tokens := s.tokens[h := t.(rotated := true, expires := s.now + grace)]);
      IssueInFamily(marked, ttl, user, t.family, fresher)
  }

  /** Every hash listed in one of the families. */
  function HashesOf(s: Db, fams: set<Family>): set<Hash> {
    set f, h | f in fams && h in Members(s.familyTokens, f, s.now) :: h
  }

  function Marks(fams: set<Family>, until: nat): map<Family, nat> {
    map f | f in fams :: until
  }

  function RevokeFamilies(s: Db, ttl: nat, fams: set<Family>): Db {
    s.(tokens := s.tokens - HashesOf(s, fams), revoked := s.revoked + Marks(fams, s.now + ttl),
       familyTokens := s.familyTokens - fams)
  }

  function RevokeAllStep(s: Db, ttl: nat, user: User): Db {
    RevokeFamilies(s, ttl, Members(s.userFamilies, user, s.now)).(userFamilies := s.userFamilies - {user})
  }

  datatype Action =
    | Issue(user: User, family: Family, hash: Hash)
    | Rotate(hash: Hash, fresher: Hash)
    | Revoke(hash: Hash)
    | RevokeAll(user: User)
    | Advance(elapsed: nat)

  function Step(s: Db, ttl: nat, grace: nat, action: Action): Db {
    match action
    case Issue(user, family, hash) =>
      if family in s.families || hash in s.issued then s else IssueInFamily(s, ttl, user, family, hash)
    case Rotate(hash, fresher) => if fresher in s.issued then s else RotateStep(s, ttl, grace, hash, fresher)
    case Revoke(hash) => s.(tokens := s.tokens - {hash})
    case RevokeAll(user) => RevokeAllStep(s, ttl, user)
    case Advance(elapsed) => s.(now := s.now + elapsed)
  }

  function Exec(s: Db, ttl: nat, grace: nat, actions: seq<Action>): Db
    decreases |actions|
  {
    if actions == [] then s else Exec(Step(s, ttl, grace, actions[0]), ttl, grace, actions[1..])
  }

  function EmptyDb(now: nat): Db {
    Db(now, map[], map[], map[], map[], {}, {})
  }

  // ---------------------------------------------------------------- index agreement

  /** A live token is listed in its family, its family in its user's set, and both outlive it. */
  predicate Indexed(s: Db, h: Hash)
    requires h in s.tokens
  {
    var t := s.tokens[h];
    && t.family in s.familyTokens && h in s.familyTokens[t.family].members
    && s.familyTokens[t.family].expires >= t.expires
    && t.user in s.userFamilies && t.family in s.userFamilies[t.user].members
    && s.userFamilies[t.user].expires >= t.expires
  }

  predicate TokenOk(s: Db, ttl: nat, h: Hash)
    requires h in s.tokens
  {
    Indexed(s, h) && s.tokens[h].family in s.families && s.tokens[h].expires <= s.now + ttl
  }

  ghost predicate AllIndexed(s: Db, ttl: nat) {
    forall h :: Live(s, h) ==> TokenOk(s, ttl, h)
  }

  ghost predicate OneUser(s: Db) {
    forall g, h :: Live(s, g) && Live(s, h) && s.tokens[g].family == s.tokens[h].family ==>
                     s.tokens[g].user == s.tokens[h].user
  }

  ghost predicate OneActive(s: Db) {
    forall g, h :: (Active(s, g) && Active(s, h) && s.tokens[g].family == s.tokens[h].family) ==> g == h
  }

  /** A listed hash was issued, in that family. */
  ghost predicate ListsOwn(s: Db) {
    && (forall h :: h in s.tokens ==> h in s.issued)
    && (forall f, h :: h in Members(s.familyTokens, f, s.now) ==>
                         h in s.issued && (h in s.tokens ==> s.tokens[h].family == f))
  }

  /** A user's set lists only families of that user. */
  ghost predicate UserOwns(s: Db) {
    && (forall u, f :: f in Members(s.userFamilies, u, s.now) ==> f in s.families)
    && (forall u, h :: Live(s, h) && s.tokens[h].family in Members(s.userFamilies, u, s.now) ==>
                         s.tokens[h].user == u)
  }

  ghost predicate Agree(s: Db, ttl: nat) {
    AllIndexed(s, ttl) && OneUser(s) && OneActive(s) && ListsOwn(s) && UserOwns(s)
  }

  // ---------------------------------------------------------------- every operation keeps the agreement

  /** Listed in both live sets, though in `family` perhaps for too short a time. */
  predicate Listed(s: Db, ttl: nat, family: Family, h: Hash)
    requires h in s.tokens
  {
    var t := s.tokens[h];
    && h in Members(s.familyTokens, t.family, s.now) && t.family in Members(s.userFamilies, t.user, s.now)
    && t.family in s.families && t.expires <= s.now + ttl
    && (t.family != family ==> Indexed(s, h))
  }

  /** What must hold before a token of `family` is issued; issuing it renews the family's two sets. */
  ghost predicate Issuable(s: Db, ttl: nat, user: User, family: Family) {
    && (forall h :: Live(s, h) ==> Listed(s, ttl, family, h))
    && OneUser(s) && OneActive(s) && ListsOwn(s) && UserOwns(s)
    && (forall u :: family in Members(s.userFamilies, u, s.now) ==> u == user)
    && (forall h :: Live(s, h) && s.tokens[h].family == family ==> s.tokens[h].user == user && s.tokens[h].rotated)
  }

  lemma IssueKeepsIndex(s: Db, ttl: nat, user: User, family: Family, hash: Hash)
    requires Issuable(s, ttl, user, family) && hash !in s.tokens
    ensures AllIndexed(IssueInFamily(s, ttl, user, family, hash), ttl)
  {
    var t := IssueInFamily(s, ttl, user, family, hash);
    forall h | Live(t, h) ensures TokenOk(t, ttl, h) {
      if h == hash {
        assert Indexed(t, hash);
      } else {
        assert Live(s, h) && Listed(s, ttl, family, h);
        assert t.tokens[h] == s.tokens[h];
        assert Indexed(t, h);
      }
    }
  }

  lemma IssueAgrees(s: Db, ttl: nat, user: User, family: Family, hash: Hash)
    requires Issuable(s, ttl, user, family) && hash !in s.issued
    ensures Agree(IssueInFamily(s, ttl, user, family, hash), ttl)
  {
    IssueKeepsIndex(s, ttl, user, family, hash);
    IssueKeepsOneActive(s, ttl, user, family, hash);
    IssueKeepsOneUser(s, ttl, user, family, hash);
    IssueKeepsLists(s, ttl, user, family, hash);
    IssueKeepsOwners(s, ttl, user, family, hash);
    hide AllIndexed, Listed, OneUser, OneActive, ListsOwn, UserOwns, IssueInFamily;
  }

  /** Every other live token was there before. */
  lemma IssuedTokens(s: Db, ttl: nat, user: User, family: Family, hash: Hash)
    ensures var t := IssueInFamily(s, ttl, user, family, hash);
            && t.tokens == s.tokens[hash := t.tokens[hash]] && t.now == s.now
            && forall h :: Live(t, h) && h != hash ==> Live(s, h) && t.tokens[h] == s.tokens[h]
  {
  }

  lemma IssueKeepsOneActive(s: Db, ttl: nat, user: User, family: Family, hash: Hash)
    requires Issuable(s, ttl, user, family)
    ensures OneActive(IssueInFamily(s, ttl, user, family, hash))
  {
    hide Listed, OneUser, ListsOwn, UserOwns;
    var t := IssueInFamily(s, ttl, user, family, hash);
    IssuedTokens(s, ttl, user, family, hash);
    forall g, h | Active(t, g) && Active(t, h) && t.tokens[g].family == t.tokens[h].family ensures g == h {
      assert g != hash ==> Active(s, g);
      assert h != hash ==> Active(s, h);
    }
  }

  lemma IssueKeepsOneUser(s: Db, ttl: nat, user: User, family: Family, hash: Hash)
    requires Issuable(s, ttl, user, family)
    ensures OneUser(IssueInFamily(s, ttl, user, family, hash))
  {
    hide Listed, OneActive, ListsOwn, UserOwns;
    var t := IssueInFamily(s, ttl, user, family, hash);
    IssuedTokens(s, ttl, user, family, hash);
    forall g, h | Live(t, g) && Live(t, h) && t.tokens[g].family == t.tokens[h].family
      ensures t.tokens[g].user == t.tokens[h].user
    {
      assert g != hash ==> Live(s, g);
      assert h != hash ==> Live(s, h);
    }
  }

  lemma IssueKeepsLists(s: Db, ttl: nat, user: User, family: Family, hash: Hash)
    requires Issuable(s, ttl, user, family) && hash !in s.issued
    ensures ListsOwn(IssueInFamily(s, ttl, user, family, hash))
  {
    hide Listed, OneUser, OneActive, UserOwns;
    var t := IssueInFamily(s, ttl, user, family, hash);
    forall f, h | h in Members(t.familyTokens, f, t.now)
      ensures (h == hash && f == family) || h in Members(s.familyTokens, f, s.now)
    {
    }
  }

  lemma IssueKeepsOwners(s: Db, ttl: nat, user: User, family: Family, hash: Hash)
    requires Issuable(s, ttl, user, family) && hash !in s.issued
    ensures UserOwns(IssueInFamily(s, ttl, user, family, hash))
  {
    hide Listed, OneUser, OneActive, ListsOwn;
    var t := IssueInFamily(s, ttl, user, family, hash);
    forall u, h | Live(t, h) && t.tokens[h].family in Members(t.userFamilies, u, t.now) ensures t.tokens[h].user == u {
      IssueKeepsOwner(s, ttl, user, family, hash, u, h);
    }
    forall u, f | f in Members(t.userFamilies, u, t.now) ensures f in t.families {
      assert f in Members(s.userFamilies, u, s.now) || (f == family && u == user);
    }
  }

  lemma IssueKeepsOwner(s: Db, ttl: nat, user: User, family: Family, hash: Hash, u: User, h: Hash)
    requires Issuable(s, ttl, user, family)
    requires var t := IssueInFamily(s, ttl, user, family, hash);
             Live(t, h) && t.tokens[h].family in Members(t.userFamilies, u, t.now)
    ensures IssueInFamily(s, ttl, user, family, hash).tokens[h].user == u
  {
    hide Listed, OneUser, OneActive, ListsOwn;
    var t := IssueInFamily(s, ttl, user, family, hash);
    var f := t.tokens[h].family;
    var was := Members(s.userFamilies, u, s.now);
    assert f in was || (f == family && u == user);
    if h != hash {
      assert Live(s, h) && s.tokens[h] == t.tokens[h];
      assert f in was ==> s.tokens[h].user == u;
    }
  }

  /** Deleting tokens and whole families whose live tokens are all deleted keeps the agreement. */
  lemma DropAgrees(s: Db, t: Db, ttl: nat)
    requires Agree(s, ttl) && t.now == s.now && t.issued == s.issued && t.families == s.families
    requires forall h :: h in t.tokens ==> h in s.tokens && t.tokens[h] == s.tokens[h]
    requires forall h :: Live(t, h) ==> Indexed(t, h)
    requires forall f :: f in t.familyTokens ==> f in s.familyTokens && t.familyTokens[f] == s.familyTokens[f]
    requires forall u :: u in t.userFamilies ==> u in s.userFamilies && t.userFamilies[u] == s.userFamilies[u]
    ensures Agree(t, ttl)
  {
    assert forall h :: Live(t, h) ==> Live(s, h);
    forall h | Live(t, h) ensures TokenOk(t, ttl, h) { assert TokenOk(s, ttl, h); }
    forall g, h | Active(t, g) && Active(t, h) && t.tokens[g].family == t.tokens[h].family ensures g == h {
      assert Active(s, g) && Active(s, h);
    }
    forall f, h | h in Members(t.familyTokens, f, t.now) ensures h in Members(s.familyTokens, f, s.now) {}
    forall u, f | f in Members(t.userFamilies, u, t.now) ensures f in Members(s.userFamilies, u, s.now) {}
  }

  lemma RevokeFamilyAgrees(s: Db, ttl: nat, family: Family)
    requires Agree(s, ttl)
    ensures Agree(RevokeFamily(s, ttl, family), ttl) && Gone(RevokeFamily(s, ttl, family), family)
  {
    var t := RevokeFamily(s, ttl, family);
    forall h | Live(t, h) ensures Indexed(t, h) && t.tokens[h].family != family {
      assert Live(s, h) && TokenOk(s, ttl, h);
    }
    DropAgrees(s, t, ttl);
  }

  /** No token of the family is live. */
  ghost predicate Gone(s: Db, family: Family) {
    forall h :: Live(s, h) ==> s.tokens[h].family != family
  }

  lemma RevokeAllAgrees(s: Db, ttl: nat, user: User)
    requires Agree(s, ttl)
    ensures Agree(RevokeAllStep(s, ttl, user), ttl)
    ensures forall h :: Live(RevokeAllStep(s, ttl, user), h) ==> RevokeAllStep(s, ttl, user).tokens[h].user != user
  {
    var t := RevokeAllStep(s, ttl, user);
    forall h | Live(t, h) ensures Indexed(t, h) && t.tokens[h].user != user {
      assert Live(s, h) && TokenOk(s, ttl, h);
      var f := s.tokens[h].family;
      assert h in Members(s.familyTokens, f, s.now);
      assert f !in Members(s.userFamilies, user, s.now);
    }
    DropAgrees(s, t, ttl);
  }

  lemma RotateAgrees(s: Db, ttl: nat, grace: nat, h: Hash, fresher: Hash)
    requires Agree(s, ttl) && grace <= ttl && fresher !in s.issued
    ensures Agree(RotateStep(s, ttl, grace, h, fresher), ttl)
  {
    if RotateOutcome(s, h).Reused? {
      RevokeFamilyAgrees(s, ttl, s.tokens[h].family);
    } else if RotateOutcome(s, h).Rotated? {
      MarkIsIssuable(s, ttl, grace, h);
      IssueAgrees(Marked(s, grace, h), ttl, s.tokens[h].user, s.tokens[h].family, fresher);
    }
  }

  /** The presented token marked rotated, kept for the grace period only. */
  function Marked(s: Db, grace: nat, h: Hash): Db
    requires h in s.tokens
  {
    s.(tokens := s.tokens[h := s.tokens[h].(rotated := true, expires := s.now + grace)])
  }

  lemma MarkIsIssuable(s: Db, ttl: nat, grace: nat, h: Hash)
    requires Agree(s, ttl) && grace <= ttl && Active(s, h)
    ensures Issuable(Marked(s, grace, h), ttl, s.tokens[h].user, s.tokens[h].family)
  {
    hide OneUser, OneActive, ListsOwn, UserOwns;
    MarkKeepsAgreement(s, ttl, grace, h);
    MarkedFamily(s, ttl, grace, h);
    var m := Marked(s, grace, h);
    forall g | Live(m, g) ensures Listed(m, ttl, s.tokens[h].family, g) {
      assert Live(s, g) && TokenOk(s, ttl, g);
    }
    hide Live, Listed;
  }

  /** The other tokens of a marked token's family are its user's, and rotated. */
  lemma MarkedFamily(s: Db, ttl: nat, grace: nat, h: Hash)
    requires Agree(s, ttl) && Active(s, h)
    ensures var m := Marked(s, grace, h);
            && (forall u :: s.tokens[h].family in Members(m.userFamilies, u, m.now) ==> u == s.tokens[h].user)
            && (forall g :: Live(m, g) && m.tokens[g].family == s.tokens[h].family ==>
                              m.tokens[g].user == s.tokens[h].user && m.tokens[g].rotated)
  {
    hide AllIndexed, ListsOwn;
    var m := Marked(s, grace, h);
    forall g | Live(m, g) && m.tokens[g].family == s.tokens[h].family
      ensures m.tokens[g].user == s.tokens[h].user && m.tokens[g].rotated
    {
      assert Live(s, g);
      assert g != h && !s.tokens[g].rotated ==> Active(s, g);
    }
  }

  lemma MarkKeepsAgreement(s: Db, ttl: nat, grace: nat, h: Hash)
    requires Agree(s, ttl) && Active(s, h)
    ensures var m := Marked(s, grace, h);
            OneUser(m) && OneActive(m) && ListsOwn(m) && UserOwns(m)
  {
    hide AllIndexed;
    var m := Marked(s, grace, h);
    assert forall g :: Active(m, g) ==> Active(s, g);
    assert forall g :: Live(m, g) ==>
        Live(s, g) && m.tokens[g].user == s.tokens[g].user && m.tokens[g].family == s.tokens[g].family;
  }

  lemma StepAgrees(s: Db, ttl: nat, grace: nat, action: Action)
    requires Agree(s, ttl) && grace <= ttl
    ensures Agree(Step(s, ttl, grace, action), ttl)
  {
    match action
    case Issue(user, family, hash) =>
      if family !in s.families && hash !in s.issued {
        AgreeIsIssuable(s, ttl, user, family);
        IssueAgrees(s, ttl, user, family, hash);
      }
    case Rotate(hash, fresher) => if fresher !in s.issued { RotateAgrees(s, ttl, grace, hash, fresher); }
    case Revoke(hash) => DeleteAgrees(s, ttl, hash);
    case RevokeAll(user) => RevokeAllAgrees(s, ttl, user);
    case Advance(elapsed) => TimeAgrees(s, ttl, elapsed);
  }

  lemma AgreeIsIssuable(s: Db, ttl: nat, user: User, family: Family)
    requires Agree(s, ttl) && family !in s.families
    ensures Issuable(s, ttl, user, family)
  {
    forall h | Live(s, h) ensures Listed(s, ttl, family, h) && s.tokens[h].family != family {
      assert TokenOk(s, ttl, h);
    }
  }

  lemma DeleteAgrees(s: Db, ttl: nat, hash: Hash)
    requires Agree(s, ttl)
    ensures Agree(s.(tokens := s.tokens - {hash}), ttl)
  {
    var t := s.(tokens := s.tokens - {hash});
    forall h | Live(t, h) ensures Indexed(t, h) { assert Live(s, h) && TokenOk(s, ttl, h); }
    DropAgrees(s, t, ttl);
  }

  lemma TimeAgrees(s: Db, ttl: nat, elapsed: nat)
    requires Agree(s, ttl)
    ensures Agree(s.(now := s.now + elapsed), ttl)
  {
    var t := s.(now := s.now + elapsed);
    forall h | Live(t, h) ensures TokenOk(t, ttl, h) { assert Live(s, h) && TokenOk(s, ttl, h); }
    forall g, h | Active(t, g) && Active(t, h) && t.tokens[g].family == t.tokens[h].family ensures g == h {
      assert Active(s, g) && Active(s, h);
    }
    forall f, h | h in Members(t.familyTokens, f, t.now) ensures h in Members(s.familyTokens, f, s.now) {}
    forall u, f | f in Members(t.userFamilies, u, t.now) ensures f in Members(s.userFamilies, u, s.now) {}
    assert forall h :: Live(t, h) ==> Live(s, h);
  }

  // ---------------------------------------------------------------- over all runs

  lemma {:induction false} AgreeAlways(s: Db, ttl: nat, grace: nat, actions: seq<Action>)
    requires Agree(s, ttl) && grace <= ttl
    ensures Agree(Exec(s, ttl, grace, actions), ttl)
    decreases |actions|
  {
    hide Agree, Step;
    if actions != [] {
      StepAgrees(s, ttl, grace, actions[0]);
      AgreeAlways(Step(s, ttl, grace, actions[0]), ttl, grace, actions[1..]);
    }
  }

  /** In every reachable state each live token is in its family's set and its family in its user's,
      both sets outlive it, and a family has at most one active token. */
  lemma IndexAgreesWithTokens(now: nat, ttl: nat, grace: nat, actions: seq<Action>)
    requires grace <= ttl
    ensures var s := Exec(EmptyDb(now), ttl, grace, actions);
            && (forall h :: Live(s, h) ==> Indexed(s, h))
            && (forall g, h :: (Active(s, g) && Active(s, h) && s.tokens[g].family == s.tokens[h].family) ==> g == h)
  {
    AgreeAlways(EmptyDb(now), ttl, grace, actions);
    var s := Exec(EmptyDb(now), ttl, grace, actions);
    forall h | Live(s, h) ensures Indexed(s, h) { assert TokenOk(s, ttl, h); }
  }

  /** After these operations every live token is still indexed. */
  ghost predicate StaysIndexed(ttl: nat, grace: nat, actions: seq<Action>) {
    var s := Exec(EmptyDb(0), ttl, grace, actions);
    forall h :: Live(s, h) ==> Indexed(s, h)
  }

  /** A token rotated right after its issue outlives the sets that list it when the grace period is
      longer than the tokens' life. */
  lemma RotatedTokenOutlivesIndex(ttl: nat, grace: nat, actions: seq<Action>)
    requires 0 < ttl < grace && actions == [Action.Issue(0, 0, 0), Action.Rotate(0, 1)]
    ensures !StaysIndexed(ttl, grace, actions)
  {
    var s := Step(EmptyDb(0), ttl, grace, actions[0]);
    var t := Step(s, ttl, grace, actions[1]);
    assert Live(s, 0) && RotateOutcome(s, 0) == Rotated(0);
    assert Live(t, 0) && !Indexed(t, 0);
    assert actions[1..] == [actions[1]] && actions[1..][1..] == [];
    assert Exec(s, ttl, grace, actions[1..]) == t;
    var start := EmptyDb(0);
    assert Exec(start, ttl, grace, actions) == t;
  }

  /** The agreement holds in every run exactly when the grace period is no longer than the tokens' life. */
  lemma AgreementNeedsShortGrace(ttl: nat, grace: nat)
    requires ttl > 0
    ensures (forall actions: seq<Action> :: StaysIndexed(ttl, grace, actions)) <==> grace <= ttl
  {
    hide StaysIndexed;
    if grace <= ttl {
      forall actions: seq<Action> ensures StaysIndexed(ttl, grace, actions) {
        IndexedRun(ttl, grace, actions);
      }
    } else {
      RotatedTokenOutlivesIndex(ttl, grace, [Action.Issue(0, 0, 0), Action.Rotate(0, 1)]);
    }
  }

  lemma IndexedRun(ttl: nat, grace: nat, actions: seq<Action>)
    requires grace <= ttl
    ensures StaysIndexed(ttl, grace, actions)
  {
    IndexAgreesWithTokens(0, ttl, grace, actions);
  }

  /** A family whose last live token is gone. */
  ghost predicate Dead(s: Db, family: Family) {
    family in s.families && Gone(s, family)
  }

  lemma DeadStays(s: Db, ttl: nat, grace: nat, action: Action, family: Family)
    requires Dead(s, family)
    ensures Dead(Step(s, ttl, grace, action), family)
  {
    var t := Step(s, ttl, grace, action);
    forall h | Live(t, h) ensures t.tokens[h].family != family {
      if Live(s, h) && h in s.tokens { assert s.tokens[h].family != family; }
    }
  }

  predicate Succeeds(s: Db, h: Hash, family: Family) {
    RotateOutcome(s, h).Rotated? && s.tokens[h].family == family
  }

  lemma {:induction false} DeadForever(s: Db, ttl: nat, grace: nat, actions: seq<Action>, family: Family)
    requires Dead(s, family)
    ensures Dead(Exec(s, ttl, grace, actions), family)
    decreases |actions|
  {
    hide Dead, Step;
    if actions != [] {
      DeadStays(s, ttl, grace, actions[0], family);
      DeadForever(Step(s, ttl, grace, actions[0]), ttl, grace, actions[1..], family);
    }
  }

  /** Presenting a rotated token kills its family: whatever happens afterwards, even once the revocation
      mark expires, no token of that family is rotated again. */
  lemma ReuseKillsTheFamily(s: Db, ttl: nat, grace: nat, h: Hash, fresher: Hash, later: seq<Action>, other: Hash)
    requires Agree(s, ttl) && RotateOutcome(s, h) == Reused && fresher !in s.issued
    ensures !Succeeds(Exec(RotateStep(s, ttl, grace, h, fresher), ttl, grace, later), other, s.tokens[h].family)
  {
    var f := s.tokens[h].family;
    assert TokenOk(s, ttl, h);
    RevokeFamilyAgrees(s, ttl, f);
    var t := RotateStep(s, ttl, grace, h, fresher);
    assert Dead(t, f);
    DeadForever(t, ttl, grace, later, f);
  }

  /** Logging out everywhere ends exactly the user's own tokens. */
  lemma RevokeAllLeavesNone(s: Db, ttl: nat, user: User, h: Hash)
    requires Agree(s, ttl)
    ensures var t := RevokeAllStep(s, ttl, user);
            Live(t, h) <==> Live(s, h) && s.tokens[h].user != user
  {
    RevokeAllAgrees(s, ttl, user);
    if Live(s, h) && h in HashesOf(s, Members(s.userFamilies, user, s.now)) {
      var f :| f in Members(s.userFamilies, user, s.now) && h in Members(s.familyTokens, f, s.now);
      assert s.tokens[h].family == f;
    }
  }

  /** Revoking a family ends exactly that family's tokens. */
  lemma RevokeFamilyIsExact(s: Db, ttl: nat, family: Family, h: Hash)
    requires Agree(s, ttl)
    ensures Live(RevokeFamily(s, ttl, family), h) <==> Live(s, h) && s.tokens[h].family != family
  {
    RevokeFamilyAgrees(s, ttl, family);
  }

  /** The token can no longer be rotated. */
  predicate Spent(s: Db, h: Hash) {
    h in s.issued && !Active(s, h)
  }

  lemma SpentStays(s: Db, ttl: nat, grace: nat, action: Action, h: Hash)
    requires Spent(s, h)
    ensures Spent(Step(s, ttl, grace, action), h)
  {
  }

  lemma {:induction false} SpentForever(s: Db, ttl: nat, grace: nat, actions: seq<Action>, h: Hash)
    requires Spent(s, h)
    ensures Spent(Exec(s, ttl, grace, actions), h)
    decreases |actions|
  {
    hide Spent, Step;
    if actions != [] {
      SpentStays(s, ttl, grace, actions[0], h);
      SpentForever(Step(s, ttl, grace, actions[0]), ttl, grace, actions[1..], h);
    }
  }

  /** A token rotates successfully at most once, in any run. */
  lemma RotatesOnce(s: Db, ttl: nat, grace: nat, h: Hash, fresher: Hash, later: seq<Action>)
    requires Agree(s, ttl) && RotateOutcome(s, h).Rotated? && fresher !in s.issued
    ensures !RotateOutcome(Exec(RotateStep(s, ttl, grace, h, fresher), ttl, grace, later), h).Rotated?
  {
    var t := RotateStep(s, ttl, grace, h, fresher);
    assert h in s.issued && fresher != h;
    assert Spent(t, h);
    SpentForever(t, ttl, grace, later, h);
  }

  /** The operations that take the token away before it expires: its own revocation, its user's logout
      everywhere, and reuse detection in its family. */
  predicate Removes(s: Db, action: Action, h: Hash) {
    && h in s.tokens
    && match action
       case Revoke(g) => g == h
       case RevokeAll(user) => s.tokens[h].user == user
       case Rotate(g, fresher) =>
         fresher !in s.issued && RotateOutcome(s, g) == Reused && s.tokens[g].family == s.tokens[h].family
       case _ => false
  }

  /** None of the operations takes the token away. */
  predicate Survives(s: Db, ttl: nat, grace: nat, later: seq<Action>, h: Hash)
    decreases |later|
  {
    later == []
    || (!Removes(s, later[0], h) && Survives(Step(s, ttl, grace, later[0]), ttl, grace, later[1..], h))
  }

  /** An issued token that is not live now never is again. */
  predicate Lapsed(s: Db, h: Hash) {
    h in s.issued && !Live(s, h)
  }

  lemma LapsedStays(s: Db, ttl: nat, grace: nat, action: Action, h: Hash)
    requires Lapsed(s, h)
    ensures Lapsed(Step(s, ttl, grace, action), h)
  {
  }

  lemma {:induction false} LapsedForever(s: Db, ttl: nat, grace: nat, later: seq<Action>, h: Hash)
    requires Lapsed(s, h)
    ensures Lapsed(Exec(s, ttl, grace, later), h)
    decreases |later|
  {
    hide Lapsed, Step;
    if later != [] {
      LapsedStays(s, ttl, grace, later[0], h);
      LapsedForever(Step(s, ttl, grace, later[0]), ttl, grace, later[1..], h);
    }
  }

  lemma {:induction false} TimePasses(s: Db, ttl: nat, grace: nat, later: seq<Action>)
    ensures s.now <= Exec(s, ttl, grace, later).now
    decreases |later|
  {
    if later != [] { TimePasses(Step(s, ttl, grace, later[0]), ttl, grace, later[1..]); }
  }

  /** A live rotated token is either taken away by an operation or left exactly as it is. */
  lemma RotatedKeepsOrGoes(s: Db, ttl: nat, grace: nat, action: Action, h: Hash)
    requires Agree(s, ttl) && Live(s, h) && s.tokens[h].rotated
    ensures var t := Step(s, ttl, grace, action);
            if Removes(s, action, h) then h !in t.tokens else h in t.tokens && t.tokens[h] == s.tokens[h]
  {
    assert TokenOk(s, ttl, h);
    assert h in s.issued;
    match action
    case RevokeAll(user) =>
      var family := s.tokens[h].family;
      assert h in Members(s.familyTokens, family, s.now);
      assert s.tokens[h].user == user ==> family in Members(s.userFamilies, user, s.now);
      if h in HashesOf(s, Members(s.userFamilies, user, s.now)) {
        var f :| f in Members(s.userFamilies, user, s.now) && h in Members(s.familyTokens, f, s.now);
        assert family == f;
      }
    case Rotate(g, fresher) =>
      if fresher !in s.issued && RotateOutcome(s, g) == Reused {
        assert h in Members(s.familyTokens, s.tokens[g].family, s.now) ==> s.tokens[h].family == s.tokens[g].family;
      }
    case Issue(user, family, hash) =>
    case Revoke(g) =>
    case Advance(elapsed) =>
  }

  lemma {:induction false} ReusedExactly(s: Db, ttl: nat, grace: nat, later: seq<Action>, h: Hash)
    requires Agree(s, ttl) && grace <= ttl && Live(s, h) && s.tokens[h].rotated
    ensures var u := Exec(s, ttl, grace, later);
            RotateOutcome(u, h) == Reused <==> u.now < s.tokens[h].expires && Survives(s, ttl, grace, later, h)
    decreases |later|
  {
    hide Agree, Step, Removes;
    if later != [] {
      var action := later[0];
      var t := Step(s, ttl, grace, action);
      RotatedKeepsOrGoes(s, ttl, grace, action, h);
      StepAgrees(s, ttl, grace, action);
      if Live(t, h) {
        ReusedExactly(t, ttl, grace, later[1..], h);
      } else {
        IssuedStays(s, ttl, grace, action, h);
        LapsedForever(t, ttl, grace, later[1..], h);
        TimePasses(t, ttl, grace, later[1..]);
      }
    }
  }

  lemma IssuedStays(s: Db, ttl: nat, grace: nat, action: Action, h: Hash)
    requires Agree(s, ttl) && Live(s, h)
    ensures h in Step(s, ttl, grace, action).issued
  {
  }

  /** Whatever happens in between, replaying a rotated token is caught iff it comes within the grace period
      and no operation took the token away; then the whole family dies. Otherwise the replay is merely
      invalid and changes nothing, so the successor lives on. */
  lemma ReplayIsCaughtWithinGrace(s: Db, ttl: nat, grace: nat, h: Hash, fresher: Hash, later: seq<Action>, third: Hash)
    requires Agree(s, ttl) && grace <= ttl && RotateOutcome(s, h).Rotated? && fresher !in s.issued
    ensures var t := RotateStep(s, ttl, grace, h, fresher);
            var u := Exec(t, ttl, grace, later);
            && (RotateOutcome(u, h) == Reused <==> u.now < s.now + grace && Survives(t, ttl, grace, later, h))
            && (RotateOutcome(u, h) == Reused ==> Gone(RotateStep(u, ttl, grace, h, third), u.tokens[h].family))
            && (RotateOutcome(u, h) != Reused ==> RotateStep(u, ttl, grace, h, third) == u)
  {
    var t := RotateStep(s, ttl, grace, h, fresher);
    var u := Exec(t, ttl, grace, later);
    assert h in s.issued && fresher != h;
    RotateAgrees(s, ttl, grace, h, fresher);
    AgreeAlways(t, ttl, grace, later);
    RotatesOnce(s, ttl, grace, h, fresher, later);
    if RotateOutcome(u, h) == Reused { RevokeFamilyAgrees(u, ttl, u.tokens[h].family); }
    hide Agree, Step;
    if grace > 0 {
      ReusedExactly(t, ttl, grace, later, h);
    } else {
      LapsedForever(t, ttl, grace, later, h);
      TimePasses(t, ttl, grace, later);
    }
  }

  /** A freshly issued token can be rotated for exactly its life, if nothing else happens. */
  lemma IssuedLivesItsLife(s: Db, ttl: nat, grace: nat, user: User, family: Family, hash: Hash, elapsed: nat)
    requires family !in s.families && hash !in s.issued && !IsRevoked(s, family)
    ensures var t := Step(Step(s, ttl, grace, Issue(user, family, hash)), ttl, grace, Advance(elapsed));
            RotateOutcome(t, hash) == if elapsed < ttl then Rotated(user) else Invalid
  {
  }

  /** So can the successor that a rotation issues, while its family is not revoked. */
  lemma SuccessorLivesItsLife(s: Db, ttl: nat, grace: nat, h: Hash, fresher: Hash, elapsed: nat)
    requires Agree(s, ttl) && RotateOutcome(s, h).Rotated? && fresher !in s.issued
    ensures var t := Step(Step(s, ttl, grace, Rotate(h, fresher)), ttl, grace, Advance(elapsed));
            var family := s.tokens[h].family;
            && (IsRevoked(t, family) <==> IsRevoked(s.(now := s.now + elapsed), family))
            && RotateOutcome(t, fresher) == if elapsed < ttl && !IsRevoked(t, family) then Rotated(s.tokens[h].user)
                                            else Invalid
  {
  }

  /** A revoked family stays marked for exactly a token's life, long enough to outlive every token it ever had. */
  lemma RevokedForALife(s: Db, ttl: nat, grace: nat, family: Family, elapsed: nat)
    ensures IsRevoked(Step(RevokeFamily(s, ttl, family), ttl, grace, Advance(elapsed)), family) <==> elapsed < ttl
  {
  }

  // ---------------------------------------------------------------- the store itself

  class RefreshTokenStore {
    var now: nat
    var tokens: map<Hash, Token>
    var familyTokens: map<Family, Index>
    var revoked: map<Family, nat>
    var userFamilies: map<User, Index>
    ghost var issued: set<Hash>
    ghost var families: set<Family>
    const ttl: nat
    const grace: nat

    constructor (now: nat, ttl: nat, grace: nat)
      ensures State() == EmptyDb(now) && this.ttl == ttl && this.grace == grace
    {
      this.now, this.ttl, this.grace := now, ttl, grace;
      tokens, familyTokens, revoked, userFamilies := map[], map[], map[], map[];
      issued, families := {}, {};
    }

    ghost function State(): Db
      reads this
    {
      Db(now, tokens, familyTokens, revoked, userFamilies, issued, families)
    }

    method IssueInto(user: User, family: Family, hash: Hash)
      modifies this
      ensures State() == IssueInFamily(old(State()), ttl, user, family, hash)
    {
      tokens := tokens[hash := Token(user, family, false, now + ttl)];
      familyTokens := Added(familyTokens, family, hash, now, ttl);
      userFamilies := Added(userFamilies, user, family, now, ttl);
      issued, families := issued + {hash}, families + {family};
    }

    method Issue(user: User, family: Family, hash: Hash)
      requires family !in families && hash !in issued
      modifies this
      ensures State() == Step(old(State()), ttl, grace, Action.Issue(user, family, hash))
      ensures RotateOutcome(State(), hash)
           == if ttl > 0 && !IsRevoked(State(), family) then Rotated(user) else Invalid
    {
      IssueInto(user, family, hash);
    }

    /** Deletes every token the family lists, then marks it revoked. */
    method RevokeOne(family: Family)
      modifies this
      ensures State() == RevokeFamily(old(State()), ttl, family)
    {
      var hashes := Members(familyTokens, family, now);
      var rest := hashes;
      while rest != {}
        invariant rest <= hashes && tokens == old(tokens) - (hashes - rest)
        invariant now == old(now) && familyTokens == old(familyTokens) && revoked == old(revoked)
        invariant userFamilies == old(userFamilies) && issued == old(issued) && families == old(families)
        decreases |rest|
      {
        var h :| h in rest;
        tokens := tokens - {h};
        rest := rest - {h};
      }
      assert hashes - rest == hashes;
      revoked := revoked[family := now + ttl];
      familyTokens := familyTokens - {family};
    }

    method Rotate(h: Hash, fresher: Hash) returns (r: RotateResult)
      requires fresher !in issued
      modifies this
      ensures r == RotateOutcome(old(State()), h)
      ensures State() == RotateStep(old(State()), ttl, grace, h, fresher)
      ensures old(Agree(State(), ttl)) && grace <= ttl ==> Agree(State(), ttl)
      ensures r.Rotated? && ttl > 0 ==>
                Active(State(), fresher) && State().tokens[fresher].family == old(tokens)[h].family
    {
      if Agree(State(), ttl) && grace <= ttl { RotateAgrees(State(), ttl, grace, h, fresher); }
      hide Agree;
      if h !in tokens || now >= tokens[h].expires { return Invalid; }
      var rec := tokens[h];
      if rec.rotated {
        RevokeOne(rec.family);
        return Reused;
      }
      if rec.family in revoked && now < revoked[rec.family] { return Invalid; }
      tokens := tokens[h := rec.(rotated := true, expires := now + grace)];
      IssueInto(rec.user, rec.family, fresher);
      r := Rotated(rec.user);
    }

    method Revoke(h: Hash)
      modifies this
      ensures State() == Step(old(State()), ttl, grace, Action.Revoke(h)) && !Live(State(), h)
    {
      tokens := tokens - {h};
    }

    method RevokeAllForUser(user: User)
      modifies this
      ensures State() == RevokeAllStep(old(State()), ttl, user)
      ensures old(Agree(State(), ttl)) ==> Agree(State(), ttl)
      ensures old(Agree(State(), ttl)) ==>
                forall h :: Live(State(), h) <==> Live(old(State()), h) && old(tokens)[h].user != user
    {
      ghost var s := State();
      if Agree(s, ttl) {
        RevokeAllAgrees(s, ttl, user);
        forall h ensures Live(RevokeAllStep(s, ttl, user), h) <==> Live(s, h) && s.tokens[h].user != user {
          RevokeAllLeavesNone(s, ttl, user, h);
        }
      }
      var fams := Members(userFamilies, user, now);
      var rest := fams;
      hide Agree, Live, RevokeFamilies, RevokeFamily, Members;
      assert State() == RevokeFamilies(s, ttl, {}) by { RevokeNone(s, ttl); }
      assert fams - rest == {};
      while rest != {}
        invariant rest <= fams && State() == RevokeFamilies(s, ttl, fams - rest)
        decreases |rest|
      {
        var f :| f in rest;
        RevokeNext(s, ttl, fams - rest, f);
        RevokeOne(f);
        assert fams - rest + {f} == fams - (rest - {f});
        rest := rest - {f};
      }
      assert fams - rest == fams;
      RevokeKeepsUsers(s, ttl, fams);
      userFamilies := userFamilies - {user};
    }
  }

  lemma RevokeNone(s: Db, ttl: nat)
    ensures RevokeFamilies(s, ttl, {}) == s
  {
    assert s.tokens - HashesOf(s, {}) == s.tokens;
    assert s.revoked + Marks({}, s.now + ttl) == s.revoked;
    assert s.familyTokens - {} == s.familyTokens;
  }

  lemma RevokeKeepsUsers(s: Db, ttl: nat, fams: set<Family>)
    ensures RevokeFamilies(s, ttl, fams).userFamilies == s.userFamilies
  {
  }

  lemma MembersLeft(s: Db, done: set<Family>, f: Family)
    requires f !in done
    ensures Members(s.familyTokens - done, f, s.now) == Members(s.familyTokens, f, s.now)
  {
  }

  /** Revoking families one after the other is revoking their union. */
  lemma RevokeNext(s: Db, ttl: nat, done: set<Family>, f: Family)
    requires f !in done
    ensures RevokeFamily(RevokeFamilies(s, ttl, done), ttl, f) == RevokeFamilies(s, ttl, done + {f})
  {
    var t := RevokeFamilies(s, ttl, done);
    hide Members;
    MembersLeft(s, done, f);
    assert Members(t.familyTokens, f, t.now) == Members(s.familyTokens, f, s.now);
    assert HashesOf(s, done + {f}) == HashesOf(s, done) + Members(s.familyTokens, f, s.now);
    assert t.tokens - Members(s.familyTokens, f, s.now) == s.tokens - HashesOf(s, done + {f});
    assert t.familyTokens - {f} == s.familyTokens - (done + {f});
    assert t.revoked[f := t.now + ttl] == s.revoked + Marks(done + {f}, s.now + ttl);
  }
}
