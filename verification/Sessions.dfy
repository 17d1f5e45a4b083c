/**
  Refresh-token families of gateway-go/internal/service/auth_service.go, with the rotation and
  reuse detection of section 10.4 of RFC 6749, for service calls taken one at a time.

  `RefreshOutcome` is what AuthService.Refresh does to the stored tokens.  A `System` adds to the
  tokens the history the theorems speak about: the order of minting in each family and every
  successful exchange.
 */
module Sessions {
  import opened Identifiers
  import opened MemoryStores
  import opened Wrappers

  const SECOND: int := 1_000_000_000
  const REFRESH_TTL: int := 7 * 24 * 3600 * SECOND

  /** The three clock readings of a refresh: for the expiry check, for UsedAt and for the new token. */
  datatype Clock = Clock(check: int, mark: int, issue: int)

  datatype Answer = Rotated(hash: Id) | Reused(familyId: Id, userId: Id) | Invalid | Failed

  /** The tokens after issueTokenPair. */
  function Issued(ts: map<Id, Token>, userId: Id, familyId: Id, hash: Id, at: int): map<Id, Token> {
    Saved(ts, hash, Token(userId, familyId, false, None, at + REFRESH_TTL))
  }

  /**
    `minted` is the hash of the newly generated token, or None if generating it or the access
    token fails; by then the presented token has been marked used.
   */
  function RefreshOutcome(ts: map<Id, Token>, userIds: set<Id>, hash: Id, c: Clock, minted: Option<Id>)
    : (map<Id, Token>, Answer)
  {
    if hash !in ts then (ts, Invalid)
    else
      var rt := ts[hash];
      if rt.revoked || rt.usedAt.Some? then (FamilyRevoked(ts, rt.familyId), Reused(rt.familyId, rt.userId))
      else if c.check > rt.expiresAt then (ts, Invalid)
      else
        var us := MarkedUsed(ts, hash, c.mark);
        if rt.userId !in userIds || minted.None? then (us, Failed)
        else (Issued(us, rt.userId, rt.familyId, minted.value, c.issue), Rotated(minted.value))
  }

  // ---------------------------------------------------------------- runs

  /** A successful exchange of a token for `hash`, checked at `at`. */
  datatype Exchange = Exchange(hash: Id, at: int)

  /**
    Stored tokens and user ids; per family the hashes in order of minting; per token its place in
    that order and its successful exchanges.
   */
  datatype System = System(
    tokens: map<Id, Token>, userIds: set<Id>,
    lineages: map<Id, seq<Id>>, place: map<Id, nat>, exchanges: map<Id, seq<Exchange>>)

  /** A service call: a registration, a login that got past the password, or a refresh. */
  datatype Call =
    | Register(id: Id)
    | Login(userId: Id, familyId: Id, minted: Option<Id>, at: int)
    | Refresh(hash: Id, clock: Clock, minted: Option<Id>)

  /** New family ids and new token hashes have not occurred before. */
  predicate Fresh(s: System, c: Call) {
    match c
    case Register(_) => true
    case Login(userId, familyId, minted, _) =>
      userId in s.userIds && familyId !in s.lineages && (minted.Some? ==> minted.value !in s.tokens)
    case Refresh(_, _, minted) => minted.Some? ==> minted.value !in s.tokens
  }

  function Answered(s: System, c: Call): Answer
    requires c.Refresh?
  {
    RefreshOutcome(s.tokens, s.userIds, c.hash, c.clock, c.minted).1
  }

  function ExchangesOf(s: System, hash: Id): seq<Exchange> {
    if hash in s.exchanges then s.exchanges[hash] else []
  }

  function LineageOf(s: System, familyId: Id): seq<Id> {
    if familyId in s.lineages then s.lineages[familyId] else []
  }

  /** Notes that `hash` was minted in the family. */
  function Minted(s: System, familyId: Id, hash: Id): System {
    var l := LineageOf(s, familyId);
    s.(lineages := s.lineages[familyId := l + [hash]], place := s.place[hash := |l|])
  }

  function Stepped(s: System, c: Call): System {
    match c
    case Register(id) => s.(userIds := s.userIds + {id})
    case Login(userId, familyId, minted, at) =>
      if minted.None? then s
      else Minted(s, familyId, minted.value).(tokens := Issued(s.tokens, userId, familyId, minted.value, at))
    case Refresh(hash, clock, minted) =>
      var (ts, a) := RefreshOutcome(s.tokens, s.userIds, hash, clock, minted);
      var t := s.(tokens := ts);
      if a.Rotated? then
        Minted(t, s.tokens[hash].familyId, a.hash)
        .(exchanges := s.exchanges[hash := ExchangesOf(s, hash) + [Exchange(a.hash, clock.check)]])
      else t
  }

  /** What a login and a refresh do to the tokens; neither touches the users. */
  lemma LoginStep(s: System, c: Call)
    requires c.Login?
    ensures Stepped(s, c).userIds == s.userIds
    ensures Stepped(s, c).tokens ==
            if c.minted.None? then s.tokens else Issued(s.tokens, c.userId, c.familyId, c.minted.value, c.at)
  {
  }

  lemma RefreshStep(s: System, c: Call)
    requires c.Refresh?
    ensures Stepped(s, c).userIds == s.userIds
    ensures (Stepped(s, c).tokens, Answered(s, c)) == RefreshOutcome(s.tokens, s.userIds, c.hash, c.clock, c.minted)
  {
  }

  const EMPTY: System := System(map[], {}, map[], map[], map[])

  ghost predicate FreshRun(s: System, calls: seq<Call>)
    decreases |calls|
  {
    calls == [] || (Fresh(s, calls[0]) && FreshRun(Stepped(s, calls[0]), calls[1..]))
  }

  function Run(s: System, calls: seq<Call>): System
    decreases |calls|
  {
    if calls == [] then s else Run(Stepped(s, calls[0]), calls[1..])
  }

  // ---------------------------------------------------------------- the lineage invariant

  /** The token stands at its place in its family's lineage. */
  ghost predicate Placed(s: System, h: Id)
    requires h in s.tokens
  {
    var f := s.tokens[h].familyId;
    h in s.place && f in s.lineages && s.place[h] < |s.lineages[f]| && s.lineages[f][s.place[h]] == h
  }

  /**
    The token has the owner and the revocation status of the first of its family; if it is not the
    last, it is used and was exchanged once, in time, for the next; if it is the last, never.
   */
  ghost predicate InLineage(s: System, h: Id)
    requires h in s.tokens
  {
    && Placed(s, h)
    && var rt := s.tokens[h];
    var l, i := s.lineages[rt.familyId], s.place[h];
    && l[0] in s.tokens
    && s.tokens[l[0]].userId == rt.userId
    && s.tokens[l[0]].revoked == rt.revoked
    && (if i + 1 < |l| then
          rt.usedAt.Some? && |ExchangesOf(s, h)| == 1 && ExchangesOf(s, h)[0].hash == l[i + 1]
          && ExchangesOf(s, h)[0].at <= rt.expiresAt
        else ExchangesOf(s, h) == [])
  }

  /** Every hash of a lineage is a token of that family, at that place. */
  ghost predicate Lineage(s: System, f: Id)
    requires f in s.lineages
  {
    var l := s.lineages[f];
    && l != []
    && forall i | 0 <= i < |l| ::
         l[i] in s.tokens && s.tokens[l[i]].familyId == f && l[i] in s.place && s.place[l[i]] == i
  }

  ghost predicate Inv(s: System) {
    && (forall h | h in s.tokens :: InLineage(s, h))
    && (forall f | f in s.lineages :: Lineage(s, f))
    && (forall h | h in s.exchanges :: h in s.tokens)
  }

  lemma InvLogin(s: System, c: Call)
    requires Inv(s) && Fresh(s, c) && c.Login?
    ensures Inv(Stepped(s, c))
  {
    var t := Stepped(s, c);
    forall h | h in t.tokens ensures InLineage(t, h) {
      if h in s.tokens {
        assert InLineage(s, h);
        assert Lineage(s, s.tokens[h].familyId);
      }
    }
    forall f | f in t.lineages ensures Lineage(t, f) {
      if f in s.lineages { assert Lineage(s, f); }
    }
  }

  /** The system after token `k` was exchanged for `m`. */
  function Exchanged(s: System, k: Id, m: Id, c: Clock): System
    requires k in s.tokens && s.tokens[k].familyId in s.lineages
  {
    var rt := s.tokens[k];
    var l := s.lineages[rt.familyId];
    System(
      s.tokens[k := rt.(usedAt := Some(c.mark))]
              [m := Token(rt.userId, rt.familyId, false, None, c.issue + REFRESH_TTL)],
      s.userIds, s.lineages[rt.familyId := l + [m]], s.place[m := |l|],
      s.exchanges[k := ExchangesOf(s, k) + [Exchange(m, c.check)]])
  }

  /** `k` can be exchanged for `m`, in a family that is a lineage. */
  ghost predicate Exchangeable(s: System, k: Id, m: Id, c: Clock) {
    && k in s.tokens && s.tokens[k].familyId in s.lineages && m !in s.tokens && m !in s.exchanges
    && !s.tokens[k].revoked && s.tokens[k].usedAt.None? && c.check <= s.tokens[k].expiresAt
    && InLineage(s, k) && Lineage(s, s.tokens[k].familyId)
  }

  lemma RefreshExchanges(s: System, c: Call)
    requires Inv(s) && Fresh(s, c) && c.Refresh? && Answered(s, c).Rotated?
    ensures c.minted.Some? && Exchangeable(s, c.hash, c.minted.value, c.clock)
    ensures Stepped(s, c) == Exchanged(s, c.hash, c.minted.value, c.clock)
  {
    assert InLineage(s, c.hash);
  }

  lemma NewInLineage(s: System, k: Id, m: Id, c: Clock)
    requires Exchangeable(s, k, m, c)
    ensures InLineage(Exchanged(s, k, m, c), m)
  {
  }

  lemma OldInLineage(s: System, k: Id, m: Id, c: Clock)
    requires Exchangeable(s, k, m, c)
    ensures InLineage(Exchanged(s, k, m, c), k)
  {
  }

  lemma OtherInLineage(s: System, k: Id, m: Id, c: Clock, h: Id)
    requires Exchangeable(s, k, m, c) && h in s.tokens && h != k
    requires InLineage(s, h) && Lineage(s, s.tokens[h].familyId)
    ensures InLineage(Exchanged(s, k, m, c), h)
  {
  }

  lemma ExchangedLineage(s: System, k: Id, m: Id, c: Clock, g: Id)
    requires Exchangeable(s, k, m, c) && g in s.lineages && Lineage(s, g)
    ensures Lineage(Exchanged(s, k, m, c), g)
  {
  }

  lemma HasLineage(s: System, h: Id)
    requires Inv(s) && h in s.tokens
    ensures InLineage(s, h) && Lineage(s, s.tokens[h].familyId)
  {
    assert InLineage(s, h);
  }

  lemma InvRotated(s: System, c: Call)
    requires Inv(s) && Fresh(s, c) && c.Refresh? && Answered(s, c).Rotated?
    ensures Inv(Stepped(s, c))
  {
    RefreshExchanges(s, c);
    hide Stepped, Answered, Fresh, InLineage, Lineage;
    var t, k, m := Stepped(s, c), c.hash, c.minted.value;
    forall h | h in t.tokens ensures InLineage(t, h) {
      if h == m {
        NewInLineage(s, k, m, c.clock);
      } else if h == k {
        OldInLineage(s, k, m, c.clock);
      } else {
        HasLineage(s, h);
        OtherInLineage(s, k, m, c.clock, h);
      }
    }
    forall g | g in t.lineages ensures Lineage(t, g) {
      ExchangedLineage(s, k, m, c.clock, g);
    }
  }

  lemma RevokedInLineage(s: System, f: Id, h: Id)
    requires h in s.tokens && InLineage(s, h) && Lineage(s, s.tokens[h].familyId)
    ensures InLineage(s.(tokens := FamilyRevoked(s.tokens, f)), h)
  {
  }

  lemma MarkedInLineage(s: System, k: Id, at: int, h: Id)
    requires h in s.tokens && InLineage(s, h)
    ensures InLineage(s.(tokens := MarkedUsed(s.tokens, k, at)), h)
  {
  }

  lemma InvNotRotated(s: System, c: Call)
    requires Inv(s) && c.Refresh? && !Answered(s, c).Rotated?
    ensures Inv(Stepped(s, c))
  {
    var t := Stepped(s, c);
    forall h | h in t.tokens ensures InLineage(t, h) {
      assert InLineage(s, h) && Lineage(s, s.tokens[h].familyId);
      match Answered(s, c)
      case Reused(f, _) => RevokedInLineage(s, f, h);
      case Failed => MarkedInLineage(s, c.hash, c.clock.mark, h);
      case Invalid =>
    }
    forall g | g in t.lineages ensures Lineage(t, g) {
      assert Lineage(s, g);
    }
  }

  lemma UsersDoNotMatter(s: System, userIds: set<Id>, h: Id)
    requires h in s.tokens && InLineage(s, h)
    ensures InLineage(s.(userIds := userIds), h)
  {
  }

  lemma UsersDoNotMatterForLineage(s: System, userIds: set<Id>, f: Id)
    requires f in s.lineages && Lineage(s, f)
    ensures Lineage(s.(userIds := userIds), f)
  {
  }

  lemma InvRegister(s: System, c: Call)
    requires Inv(s) && c.Register?
    ensures Inv(Stepped(s, c))
  {
    hide InLineage, Lineage;
    var t := Stepped(s, c);
    forall h | h in t.tokens ensures InLineage(t, h) {
      HasLineage(s, h);
      UsersDoNotMatter(s, t.userIds, h);
    }
    forall f | f in t.lineages ensures Lineage(t, f) {
      UsersDoNotMatterForLineage(s, t.userIds, f);
    }
  }

  lemma InvStep(s: System, c: Call)
    requires Inv(s) && Fresh(s, c)
    ensures Inv(Stepped(s, c))
  {
    hide Inv, Fresh, Stepped, Answered;
    match c
    case Register(_) => InvRegister(s, c);
    case Login(_, _, _, _) => InvLogin(s, c);
    case Refresh(_, _, _) => if Answered(s, c).Rotated? { InvRotated(s, c); } else { InvNotRotated(s, c); }
  }

  /** In every reachable state each family is a single lineage. */
  lemma {:induction false} FamiliesAreLineages(s: System, calls: seq<Call>)
    requires Inv(s) && FreshRun(s, calls)
    ensures Inv(Run(s, calls))
    decreases |calls|
  {
    if calls != [] {
      InvStep(s, calls[0]);
      FamiliesAreLineages(Stepped(s, calls[0]), calls[1..]);
    }
  }

  /** From the start, whatever calls are made. */
  lemma {:induction false} FamiliesAreLineagesFromStart(calls: seq<Call>)
    requires FreshRun(EMPTY, calls)
    ensures Inv(Run(EMPTY, calls))
  {
    assert Inv(EMPTY);
    FamiliesAreLineages(EMPTY, calls);
  }

  /** At most one token of a family is neither used nor revoked, and it is the newest. */
  lemma OneLiveToken(s: System, h: Id)
    requires Inv(s) && h in s.tokens && !s.tokens[h].revoked && s.tokens[h].usedAt.None?
    ensures var l := s.lineages[s.tokens[h].familyId]; l[|l| - 1] == h
    ensures forall k | k in s.tokens && s.tokens[k].familyId == s.tokens[h].familyId && k != h ::
              s.tokens[k].usedAt.Some?
  {
    var f := s.tokens[h].familyId;
    assert InLineage(s, h) && Lineage(s, f);
    forall k | k in s.tokens && s.tokens[k].familyId == f && k != h ensures s.tokens[k].usedAt.Some? {
      assert InLineage(s, k);
    }
  }

  /** A refresh succeeds exactly for the newest token of its family, unused, unrevoked and in time. */
  lemma RefreshSucceedsExactly(s: System, c: Call)
    requires Inv(s) && c.Refresh?
    ensures Answered(s, c).Rotated? <==>
            && c.hash in s.tokens
            && var rt := s.tokens[c.hash];
            && LineageOf(s, rt.familyId) != []
            && c.hash == LineageOf(s, rt.familyId)[|LineageOf(s, rt.familyId)| - 1]
            && !rt.revoked && rt.usedAt.None? && c.clock.check <= rt.expiresAt
            && rt.userId in s.userIds && c.minted.Some?
  {
    if c.hash in s.tokens {
      assert InLineage(s, c.hash);
      if !s.tokens[c.hash].revoked && s.tokens[c.hash].usedAt.None? { OneLiveToken(s, c.hash); }
    }
  }

  /** Each token is exchanged at most once, never after its expiry, and never once it has a successor. */
  lemma ExchangedAtMostOnce(s: System, h: Id)
    requires Inv(s)
    ensures |ExchangesOf(s, h)| <= 1
    ensures forall x | x in ExchangesOf(s, h) ::
              && h in s.tokens && x.hash in s.tokens
              && x.at <= s.tokens[h].expiresAt
              && s.tokens[x.hash].familyId == s.tokens[h].familyId
              && s.place[x.hash] == s.place[h] + 1
  {
    if ExchangesOf(s, h) != [] {
      assert InLineage(s, h);
      assert Lineage(s, s.tokens[h].familyId);
    }
  }

  /**
    Reuse is reported exactly for a known token that was used or revoked, with that token's own family
    and owner.
   */
  lemma ReuseReportedExactly(s: System, c: Call)
    requires c.Refresh?
    ensures Answered(s, c).Reused? <==>
            c.hash in s.tokens && (s.tokens[c.hash].revoked || s.tokens[c.hash].usedAt.Some?)
    ensures Answered(s, c).Reused? ==>
              Answered(s, c) == Reused(s.tokens[c.hash].familyId, s.tokens[c.hash].userId)
  {
  }

  /** What a token carries from its minting on. */
  predicate SameOwner(a: Token, b: Token) {
    a.userId == b.userId && a.familyId == b.familyId && a.expiresAt == b.expiresAt
  }

  /**
    A successful refresh marks the presented token as used and adds one token, live for seven days, of
    the same family and owner; every other token stays as it was.
   */
  lemma RotationChangesTwoTokens(s: System, c: Call)
    requires c.Refresh? && Answered(s, c).Rotated? && Fresh(s, c)
    ensures var t, m := Stepped(s, c).tokens, Answered(s, c).hash;
            && c.minted == Some(m) && m !in s.tokens && c.hash in s.tokens && t.Keys == s.tokens.Keys + {m}
            && SameOwner(t[c.hash], s.tokens[c.hash]) && !t[c.hash].revoked && t[c.hash].usedAt == Some(c.clock.mark)
            && t[m].userId == s.tokens[c.hash].userId && t[m].familyId == s.tokens[c.hash].familyId
            && !t[m].revoked && t[m].usedAt.None? && t[m].expiresAt == c.clock.issue + 604_800_000_000_000
            && forall h | h in s.tokens && h != c.hash :: t[h] == s.tokens[h]
  {
  }

  /** A refresh that is not a reuse and does not succeed changes no token, or uses the presented one up. */
  lemma FailedRefresh(s: System, c: Call)
    requires c.Refresh? && (Answered(s, c).Invalid? || Answered(s, c).Failed?)
    ensures Answered(s, c).Failed? <==>
            && c.hash in s.tokens && !s.tokens[c.hash].revoked && s.tokens[c.hash].usedAt.None?
            && c.clock.check <= s.tokens[c.hash].expiresAt
    ensures Answered(s, c).Invalid? ==> Stepped(s, c) == s
    ensures Answered(s, c).Failed? ==>
              var t := Stepped(s, c).tokens;
              && t.Keys == s.tokens.Keys && SameOwner(t[c.hash], s.tokens[c.hash])
              && !t[c.hash].revoked && t[c.hash].usedAt == Some(c.clock.mark)
              && forall h | h in s.tokens && h != c.hash :: t[h] == s.tokens[h]
  {
  }

  /** A login mints one token of a new family, live for seven days. */
  lemma LoginMintsOneToken(s: System, c: Call)
    requires c.Login? && c.minted.Some? && Fresh(s, c)
    ensures var t, m := Stepped(s, c).tokens, c.minted.value;
            && m !in s.tokens && t.Keys == s.tokens.Keys + {m}
            && t[m].userId == c.userId && t[m].familyId == c.familyId
            && !t[m].revoked && t[m].usedAt.None? && t[m].expiresAt == c.at + 604_800_000_000_000
            && forall h | h in s.tokens :: t[h] == s.tokens[h]
  {
  }

  // ---------------------------------------------------------------- reuse is final

  /** The family exists and every token of it is revoked. */
  ghost predicate Dead(s: System, f: Id) {
    f in s.lineages && forall h | h in s.tokens && s.tokens[h].familyId == f :: s.tokens[h].revoked
  }

  /** Reporting reuse revokes the whole family and leaves every other token as it was. */
  lemma ReuseKillsFamily(s: System, c: Call)
    requires Inv(s) && c.Refresh? && Answered(s, c).Reused?
    ensures var f, t := Answered(s, c).familyId, Stepped(s, c);
            && Dead(t, f)
            && t.lineages == s.lineages && t.tokens.Keys == s.tokens.Keys
            && forall h | h in s.tokens ::
                 t.tokens[h] == if s.tokens[h].familyId == f then s.tokens[h].(revoked := true) else s.tokens[h]
  {
    assert InLineage(s, c.hash);
  }

  lemma DeadStep(s: System, c: Call, f: Id)
    requires Inv(s) && Fresh(s, c) && Dead(s, f)
    ensures Dead(Stepped(s, c), f) && Stepped(s, c).lineages[f] == s.lineages[f]
  {
    if c.Refresh? && c.hash in s.tokens {
      assert InLineage(s, c.hash);
    }
  }

  /** After that no call in any continuation mints a token in the family, and all its tokens stay revoked. */
  lemma {:induction false} ReuseIsFinal(s: System, calls: seq<Call>, f: Id)
    requires Inv(s) && FreshRun(s, calls) && Dead(s, f)
    ensures Dead(Run(s, calls), f) && Run(s, calls).lineages[f] == s.lineages[f]
    decreases |calls|
  {
    if calls != [] {
      InvStep(s, calls[0]);
      DeadStep(s, calls[0], f);
      ReuseIsFinal(Stepped(s, calls[0]), calls[1..], f);
    }
  }

  /** The token was used or revoked. */
  predicate Spent(rt: Token) {
    rt.revoked || rt.usedAt.Some?
  }

  lemma SpentStep(s: System, c: Call, h: Id)
    requires Fresh(s, c) && h in s.tokens && Spent(s.tokens[h])
    ensures h in Stepped(s, c).tokens
    ensures Spent(Stepped(s, c).tokens[h]) && SameOwner(Stepped(s, c).tokens[h], s.tokens[h])
  {
  }

  lemma {:induction false} SpentStays(s: System, calls: seq<Call>, h: Id)
    requires FreshRun(s, calls) && h in s.tokens && Spent(s.tokens[h])
    ensures h in Run(s, calls).tokens
    ensures Spent(Run(s, calls).tokens[h]) && SameOwner(Run(s, calls).tokens[h], s.tokens[h])
    decreases |calls|
  {
    if calls != [] {
      hide Fresh, Stepped, Spent;
      SpentStep(s, calls[0], h);
      SpentStays(Stepped(s, calls[0]), calls[1..], h);
    }
  }

  /**
    Once a token was exchanged, or used or revoked in any other way, every later refresh with it, in
    any continuation, reports reuse and leaves its family dead.
   */
  lemma {:induction false} SpentTokenIsReuse(s: System, calls: seq<Call>, c: Call)
    requires Inv(s) && FreshRun(s, calls) && c.Refresh?
    requires ExchangesOf(s, c.hash) != [] || (c.hash in s.tokens && Spent(s.tokens[c.hash]))
    ensures c.hash in s.tokens
    ensures var t, rt := Run(s, calls), s.tokens[c.hash];
            && Answered(t, c) == Reused(rt.familyId, rt.userId)
            && Dead(Stepped(t, c), rt.familyId)
  {
    if ExchangesOf(s, c.hash) != [] {
      ExchangedAtMostOnce(s, c.hash);
      assert InLineage(s, c.hash);
    }
    SpentStays(s, calls, c.hash);
    FamiliesAreLineages(s, calls);
    ReuseReportedExactly(Run(s, calls), c);
    hide Run, Inv, Dead, Stepped, Answered;
    ReuseKillsFamily(Run(s, calls), c);
  }
}
