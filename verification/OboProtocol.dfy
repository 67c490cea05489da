/** On-behalf-of tokens over every interleaving of lookups, fetches made outside the lock,
    stores and invalidations by any number of callers. */
module OboProtocol {
  import opened JsonValues
  import opened OboCache

  // ------------------------------------------------------------ keys

  datatype Server = Server(id: string, url: string, isEma: bool, oboAudience: string, oboScope: string,
                           oboResource: string, emaIssuer: string, emaResourceId: string, emaSubjectTokenType: string)

  datatype Caller = Caller(subject: string, issuer: string, expiresAt: Option<real>)

  function ServerId(s: Server): string {
    if s.id != "" then s.id else s.url
  }

  /** `obo_cache_key`. */
  function KeyFor(s: Server, c: Caller): CacheKey {
    if s.isEma
    then CacheKey(c.subject, c.issuer, ServerId(s), s.emaIssuer, s.oboScope, s.emaResourceId,
                  "ema:" + s.emaSubjectTokenType)
    else CacheKey(c.subject, c.issuer, ServerId(s), s.oboAudience, s.oboScope, s.oboResource, "obo")
  }

  /** What an exchange asks the identity provider for. */
  datatype Purpose = Obo(oboAudience: string, oboScope: string, oboResource: string)
                   | Ema(resourceAs: string, scope: string, resource: string, subjectTokenType: string)

  function PurposeOf(s: Server): Purpose {
    if s.isEma then Ema(s.emaIssuer, s.oboScope, s.emaResourceId, s.emaSubjectTokenType)
    else Obo(s.oboAudience, s.oboScope, s.oboResource)
  }

  /** One key, one person, one server, one kind of token: the two flows never share. */
  lemma KeyPinsEverything(s: Server, c: Caller, s': Server, c': Caller)
    ensures KeyFor(s, c) == KeyFor(s', c') <==>
            c.subject == c'.subject && c.issuer == c'.issuer && ServerId(s) == ServerId(s') &&
            PurposeOf(s) == PurposeOf(s')
  {
    assert "obo"[0] == 'o' && ("ema:" + s.emaSubjectTokenType)[0] == 'e' && ("ema:" + s'.emaSubjectTokenType)[0] == 'e';
    assert ("ema:" + s.emaSubjectTokenType)[4..] == s.emaSubjectTokenType;
    assert ("ema:" + s'.emaSubjectTokenType)[4..] == s'.emaSubjectTokenType;
  }

  // ------------------------------------------------------------ the protocol

  /** A token an identity provider issued: for whom, when, for how long by its own account,
      and the expiry the cache computed on receiving it. */
  datatype Mint = Mint(server: Server, caller: Caller, token: string, issuedAt: real, seconds: Option<int>,
                       receivedAt: real, expiresAt: real)

  datatype Call = Call(server: Server, caller: Caller, fetched: Option<Mint>)

  /** A token handed to a caller, with the expiry the cache holds for it. */
  datatype Served = Served(server: Server, caller: Caller, token: string, expiresAt: real, at: real, fromCache: bool)

  datatype State = State(entries: Entries, calls: map<nat, Call>, mints: seq<Mint>, served: seq<Served>,
                         lastUse: map<CacheKey, nat>, ticks: nat, clock: real)

  datatype Action =
    | Begin(call: nat, server: Server, caller: Caller, now: real)
    | Fetched(call: nat, token: string, issuedAt: real, seconds: Option<int>, now: real)
    | FetchFailed(call: nat)
    | Finish(call: nat, now: real)
    | Invalidate(server: Server, caller: Caller)

  function INIT(): State {
    State([], map[], [], [], map[], 0, 0.0)
  }

  function NowOf(s: State, a: Action): real {
    match a
    case Begin(_, _, _, now) => now
    case Fetched(_, _, _, _, now) => now
    case Finish(_, now) => now
    case _ => s.clock
  }

  /** An action the state does not allow, or one before the clock, changes nothing. */
  function Step(s: State, a: Action, max: nat): State {
    if NowOf(s, a) < s.clock then s
    else
      var t := s.(clock := NowOf(s, a));
      match a
      case Begin(call, server, caller, now) => if call in s.calls then s else BeginStep(t, call, server, caller, now)
      case Fetched(call, token, issuedAt, seconds, now) =>
        if call !in s.calls || s.calls[call].fetched.Some? || now < issuedAt then s
        else FetchedStep(t, call, token, issuedAt, seconds, now)
      case FetchFailed(call) => t.(calls := t.calls - {call})
      case Finish(call, now) =>
        if call !in s.calls || s.calls[call].fetched.None? then s else FinishStep(t, call, now, max)
      case Invalidate(server, caller) => t.(entries := Remove(t.entries, KeyFor(server, caller)))
  }

  function Used(s: State, key: CacheKey): State {
    s.(lastUse := s.lastUse[key := s.ticks], ticks := s.ticks + 1)
  }

  function BeginStep(s: State, call: nat, server: Server, caller: Caller, now: real): State {
    var key := KeyFor(server, caller);
    var (entries, hit) := Looked(s.entries, key, now);
    match hit
    case Some(entry) =>
      var served := Served(server, caller, entry.token, entry.expiresAt, now, true);
      Used(s.(entries := entries, served := s.served + [served]), key)
    case None => s.(entries := entries, calls := s.calls[call := Call(server, caller, None)])
  }

  function FetchedStep(s: State, call: nat, token: string, issuedAt: real, seconds: Option<int>, now: real): State
    requires call in s.calls
  {
    var c := s.calls[call];
    var m := Mint(c.server, c.caller, token, issuedAt, seconds, now,
                  ExpiryFor(now, CoerceExpiresIn(seconds), c.caller.expiresAt));
    s.(mints := s.mints + [m], calls := s.calls[call := c.(fetched := Some(m))])
  }

  function FinishStep(s: State, call: nat, now: real, max: nat): State
    requires call in s.calls && s.calls[call].fetched.Some?
  {
    var c := s.calls[call];
    var m := c.fetched.value;
    var key := KeyFor(c.server, c.caller);
    Used(s.(entries := OboCache.Stored(s.entries, key, Entry(m.token, m.expiresAt), max),
            calls := s.calls - {call},
            served := s.served + [Served(c.server, c.caller, m.token, m.expiresAt, now, false)]), key)
  }

  function Run(actions: seq<Action>, max: nat): State {
    if |actions| == 0 then INIT() else Step(Run(actions[..|actions| - 1], max), actions[|actions| - 1], max)
  }

  // ------------------------------------------------------------ what always holds

  /** The token came from an exchange for that same key. */
  ghost predicate MintedFor(m: Mint, key: CacheKey, token: string) {
    KeyFor(m.server, m.caller) == key && m.token == token
  }

  ghost predicate EntryOk(s: State, e: (CacheKey, Entry)) {
    exists m :: m in s.mints && MintedFor(m, e.0, e.1.token) && m.expiresAt == e.1.expiresAt
  }

  /** What was served is what `m` brought: for the same key, with its expiry, and, unless it
      came from the cache, to the caller it was fetched for. */
  ghost predicate Backs(m: Mint, x: Served) {
    && MintedFor(m, KeyFor(x.server, x.caller), x.token)
    && m.receivedAt <= x.at && m.expiresAt == x.expiresAt
    && (x.fromCache ==> IsLive(Entry(m.token, m.expiresAt), x.at))
    && (!x.fromCache ==> m.caller == x.caller)
  }

  ghost predicate ServedOk(s: State, x: Served) {
    exists m :: m in s.mints && Backs(m, x)
  }

  ghost predicate MintOk(s: State, m: Mint) {
    && m.expiresAt == ExpiryFor(m.receivedAt, CoerceExpiresIn(m.seconds), m.caller.expiresAt)
    && m.issuedAt <= m.receivedAt <= s.clock
  }

  ghost predicate CallOk(s: State, c: Call) {
    c.fetched.Some? ==>
      c.fetched.value in s.mints && c.fetched.value.server == c.server && c.fetched.value.caller == c.caller
  }

  /** Position in the cache is order of last use. */
  ghost predicate ByLastUse(entries: Entries, lastUse: map<CacheKey, nat>, ticks: nat) {
    && (forall i :: 0 <= i < |entries| ==> entries[i].0 in lastUse && lastUse[entries[i].0] < ticks)
    && (forall i, j :: 0 <= i < j < |entries| ==> lastUse[entries[i].0] < lastUse[entries[j].0])
  }

  ghost predicate Inv(s: State, max: nat) {
    && DistinctKeys(s.entries) && |s.entries| <= max
    && ByLastUse(s.entries, s.lastUse, s.ticks)
    && (forall e :: e in s.entries ==> EntryOk(s, e))
    && (forall m :: m in s.mints ==> MintOk(s, m))
    && (forall x :: x in s.served ==> ServedOk(s, x))
    && (forall c :: c in s.calls ==> CallOk(s, s.calls[c]))
  }

  lemma TailOrdered(entries: Entries, lastUse: map<CacheKey, nat>, ticks: nat)
    requires ByLastUse(entries, lastUse, ticks) && |entries| > 0
    ensures ByLastUse(entries[1..], lastUse, ticks)
    ensures entries[0].0 in lastUse && lastUse[entries[0].0] < ticks
    ensures forall e :: e in entries[1..] ==> e.0 in lastUse && lastUse[entries[0].0] < lastUse[e.0]
  {
    assert forall i :: 0 <= i < |entries[1..]| ==> entries[1..][i] == entries[i + 1];
  }

  lemma {:induction false} RemoveOrdered(entries: Entries, key: CacheKey, lastUse: map<CacheKey, nat>, ticks: nat)
    requires ByLastUse(entries, lastUse, ticks)
    ensures ByLastUse(Remove(entries, key), lastUse, ticks)
    decreases |entries|
  {
    hide ByLastUse;
    if |entries| == 0 {
      assert Remove(entries, key) == entries;
    } else {
      TailOrdered(entries, lastUse, ticks);
      RemoveOrdered(entries[1..], key, lastUse, ticks);
      var kept := Remove(entries[1..], key);
      assert forall j :: 0 <= j < |kept| ==> kept[j] in kept;
      ConsOrdered(entries[0], kept, lastUse, ticks);
      assert [] + kept == kept;
    }
  }

  lemma ConsOrdered(first: (CacheKey, Entry), rest: Entries, lastUse: map<CacheKey, nat>, ticks: nat)
    requires ByLastUse(rest, lastUse, ticks) && first.0 in lastUse && lastUse[first.0] < ticks
    requires forall j :: 0 <= j < |rest| ==> rest[j].0 in lastUse && lastUse[first.0] < lastUse[rest[j].0]
    ensures ByLastUse([first] + rest, lastUse, ticks)
  {
  }

  lemma PutLastOrdered(entries: Entries, key: CacheKey, entry: Entry, lastUse: map<CacheKey, nat>, ticks: nat)
    requires ByLastUse(entries, lastUse, ticks)
    ensures ByLastUse(PutLast(entries, key, entry), lastUse[key := ticks], ticks + 1)
  {
    RemoveOrdered(entries, key, lastUse, ticks);
    var kept := Remove(entries, key);
    forall i | 0 <= i < |kept|
      ensures kept[i].0 != key
    {
      assert kept[i] in kept;
    }
  }

  /** What makes room is older, by last use, than everything that stays. */
  lemma EvictsLeastRecentlyUsed(entries: Entries, key: CacheKey, entry: Entry, lastUse: map<CacheKey, nat>,
                                ticks: nat, max: nat)
    requires ByLastUse(entries, lastUse, ticks)
    ensures var before, after := PutLast(entries, key, entry), OboCache.Stored(entries, key, entry, max);
            var use := lastUse[key := ticks];
            && ByLastUse(after, use, ticks + 1)
            && |before| == |after| + (if |before| > max then |before| - max else 0)
            && (forall i :: 0 <= i < |before| ==> before[i].0 in use)
            && (forall i, j :: 0 <= i < |before| - |after| && 0 <= j < |after| ==>
                  after[j].0 in use && use[before[i].0] < use[after[j].0])
  {
    hide PutLast, ByLastUse, Newest;
    PutLastOrdered(entries, key, entry, lastUse, ticks);
    var before := PutLast(entries, key, entry);
    NewestOrdered(before, lastUse[key := ticks], ticks + 1, max);
  }

  lemma NewestOrdered(before: Entries, use: map<CacheKey, nat>, ticks: nat, max: nat)
    requires ByLastUse(before, use, ticks)
    ensures var after := Newest(before, max);
            && ByLastUse(after, use, ticks)
            && |before| == |after| + (if |before| > max then |before| - max else 0)
            && (forall i :: 0 <= i < |before| ==> before[i].0 in use)
            && (forall i, j :: 0 <= i < |before| - |after| && 0 <= j < |after| ==>
                  after[j].0 in use && use[before[i].0] < use[after[j].0])
  {
    hide Newest, ByLastUse;
    var gone := if |before| > max then |before| - max else 0;
    assert Newest(before, max) == before[gone..];
    SuffixOrdered(before, use, ticks, gone);
  }

  lemma SuffixOrdered(before: Entries, use: map<CacheKey, nat>, ticks: nat, gone: nat)
    requires ByLastUse(before, use, ticks) && gone <= |before|
    ensures ByLastUse(before[gone..], use, ticks)
    ensures forall i :: 0 <= i < |before| ==> before[i].0 in use
    ensures forall i, j :: 0 <= i < gone && 0 <= j < |before| - gone ==>
              before[gone..][j].0 in use && use[before[i].0] < use[before[gone..][j].0]
  {
    var after := before[gone..];
    assert forall j :: 0 <= j < |after| ==> after[j] == before[gone + j];
  }

  lemma LookedOrdered(s: State, key: CacheKey, now: real)
    requires ByLastUse(s.entries, s.lastUse, s.ticks)
    ensures var (entries, hit) := Looked(s.entries, key, now);
            && (hit.Some? ==> ByLastUse(entries, s.lastUse[key := s.ticks], s.ticks + 1))
            && (hit.None? ==> ByLastUse(entries, s.lastUse, s.ticks))
  {
    hide ByLastUse, Remove, PutLast;
    RemoveOrdered(s.entries, key, s.lastUse, s.ticks);
    if Find(s.entries, key).Some? {
      PutLastOrdered(s.entries, key, Find(s.entries, key).value, s.lastUse, s.ticks);
    }
  }

  /** Later states know every mint earlier ones knew. */
  lemma Later(s: State, t: State)
    requires (forall m :: m in s.mints ==> m in t.mints) && s.clock <= t.clock
    ensures forall e :: EntryOk(s, e) ==> EntryOk(t, e)
    ensures forall x :: ServedOk(s, x) ==> ServedOk(t, x)
    ensures forall m :: MintOk(s, m) ==> MintOk(t, m)
    ensures forall c :: CallOk(s, c) ==> CallOk(t, c)
  {
    hide MintedFor, IsLive, ExpiryFor, Backs;
    forall e | EntryOk(s, e) ensures EntryOk(t, e) {
      var m :| m in s.mints && MintedFor(m, e.0, e.1.token) && m.expiresAt == e.1.expiresAt;
      assert m in t.mints;
    }
    forall x | ServedOk(s, x) ensures ServedOk(t, x) {
      var m :| m in s.mints && Backs(m, x);
      assert m in t.mints;
    }
  }

  lemma BeginKeeps(s: State, call: nat, server: Server, caller: Caller, now: real, max: nat)
    requires Inv(s, max) && s.clock == now
    ensures Inv(BeginStep(s, call, server, caller, now), max)
  {
    hide EntryOk, MintOk, ServedOk, CallOk, ByLastUse, Looked, KeyFor;
    var key := KeyFor(server, caller);
    LookedKeeps(s.entries, key, now, max);
    LookedOrdered(s, key, now);
    var t := BeginStep(s, call, server, caller, now);
    Later(s, t);
    var hit := Looked(s.entries, key, now).1;
    if hit.Some? {
      HitIsMinted(s, server, caller, hit.value, now, max);
      Later(s.(served := t.served), t);
    } else {
      NewCallOk(t, server, caller);
    }
  }

  lemma NewCallOk(s: State, server: Server, caller: Caller)
    ensures CallOk(s, Call(server, caller, None))
  {
  }

  lemma HitIsMinted(s: State, server: Server, caller: Caller, entry: Entry, now: real, max: nat)
    requires Inv(s, max) && s.clock == now && Looked(s.entries, KeyFor(server, caller), now).1 == Some(entry)
    ensures forall t: State :: t.mints == s.mints ==>
            ServedOk(t, Served(server, caller, entry.token, entry.expiresAt, now, true))
  {
    hide ByLastUse, Looked, KeyFor, IsLive, ExpiryFor;
    var key := KeyFor(server, caller);
    LookedKeeps(s.entries, key, now, max);
    assert EntryOk(s, (key, entry));
    var m :| m in s.mints && MintedFor(m, key, entry.token) && m.expiresAt == entry.expiresAt;
    assert MintOk(s, m);
    assert entry == Entry(m.token, m.expiresAt);
    assert Backs(m, Served(server, caller, entry.token, entry.expiresAt, now, true));
  }

  lemma FetchedKeeps(s: State, call: nat, token: string, issuedAt: real, seconds: Option<int>, now: real, max: nat)
    requires Inv(s, max) && s.clock == now && call in s.calls && issuedAt <= now
    ensures Inv(FetchedStep(s, call, token, issuedAt, seconds, now), max)
  {
    hide EntryOk, ServedOk, ByLastUse, ExpiryFor, KeyFor;
    var t := FetchedStep(s, call, token, issuedAt, seconds, now);
    Later(s, t);
    assert t.mints[|s.mints|] in t.mints;
  }

  lemma FinishKeeps(s: State, call: nat, now: real, max: nat)
    requires Inv(s, max) && s.clock == now && call in s.calls && s.calls[call].fetched.Some?
    ensures Inv(FinishStep(s, call, now, max), max)
  {
    hide EntryOk, MintOk, ServedOk, CallOk, ByLastUse, OboCache.Stored, KeyFor;
    var c := s.calls[call];
    var m := c.fetched.value;
    var key := KeyFor(c.server, c.caller);
    var entry := Entry(m.token, m.expiresAt);
    var t := FinishStep(s, call, now, max);
    StoredKeeps(s.entries, key, entry, max);
    EvictsLeastRecentlyUsed(s.entries, key, entry, s.lastUse, s.ticks, max);
    Later(s, t);
    assert CallOk(s, c) && m in s.mints by { CallMinted(s, c); }
    FreshIsMinted(s, t, c, now);
  }

  lemma CallMinted(s: State, c: Call)
    requires CallOk(s, c) && c.fetched.Some?
    ensures c.fetched.value in s.mints
  {
  }

  lemma FreshIsMinted(s: State, t: State, c: Call, now: real)
    requires c.fetched.Some? && CallOk(s, c) && t.mints == s.mints && s.clock == now
    requires MintOk(s, c.fetched.value)
    ensures EntryOk(t, (KeyFor(c.server, c.caller), Entry(c.fetched.value.token, c.fetched.value.expiresAt)))
    ensures ServedOk(t, Served(c.server, c.caller, c.fetched.value.token, c.fetched.value.expiresAt, now, false))
  {
    hide KeyFor, ExpiryFor;
    var m := c.fetched.value;
    assert m in t.mints;
    assert Backs(m, Served(c.server, c.caller, m.token, m.expiresAt, now, false));
  }

  lemma StepKeepsInv(s: State, a: Action, max: nat)
    requires Inv(s, max)
    ensures Inv(Step(s, a, max), max)
  {
    hide EntryOk, MintOk, ServedOk, CallOk, ByLastUse, BeginStep, FetchedStep, FinishStep, KeyFor;
    if NowOf(s, a) >= s.clock {
      var t := s.(clock := NowOf(s, a));
      Later(s, t);
      assert Inv(t, max);
      match a
      case Begin(call, server, caller, now) => BeginKeeps(t, call, server, caller, now, max);
      case Fetched(call, token, issuedAt, seconds, now) =>
        if call in s.calls && s.calls[call].fetched.None? && issuedAt <= now {
          FetchedKeeps(t, call, token, issuedAt, seconds, now, max);
        }
      case FetchFailed(call) =>
        Later(t, t.(calls := t.calls - {call}));
      case Finish(call, now) =>
        if call in s.calls && s.calls[call].fetched.Some? { FinishKeeps(t, call, now, max); }
      case Invalidate(server, caller) =>
        RemoveKeeps(t.entries, KeyFor(server, caller));
        RemoveOrdered(t.entries, KeyFor(server, caller), t.lastUse, t.ticks);
        Later(t, t.(entries := Remove(t.entries, KeyFor(server, caller))));
    }
  }

  /** In every interleaving the cache stays bounded, ordered by use, and true to its keys. */
  lemma {:induction false} AlwaysInv(actions: seq<Action>, max: nat)
    ensures Inv(Run(actions, max), max)
    decreases |actions|
  {
    hide Step, Inv;
    if |actions| == 0 {
      EmptyInv(max);
    } else {
      AlwaysInv(actions[..|actions| - 1], max);
      StepKeepsInv(Run(actions[..|actions| - 1], max), actions[|actions| - 1], max);
    }
  }

  lemma EmptyInv(max: nat)
    ensures Inv(INIT(), max)
  {
  }

  /** No caller is ever given another's token. Whatever was served, from the cache or fresh,
      was issued to the same subject of the same issuer, for the same server and purpose; its
      cached expiry is no later than the session it was obtained with; and, stored within 30
      seconds of issue, it was served from the cache before its true expiry. */
  lemma OwnTokensOnly(actions: seq<Action>, max: nat, x: Served)
    requires x in Run(actions, max).served
    ensures exists m :: m in Run(actions, max).mints && m.token == x.token && m.expiresAt == x.expiresAt
              && m.caller.subject == x.caller.subject && m.caller.issuer == x.caller.issuer
              && ServerId(m.server) == ServerId(x.server) && PurposeOf(m.server) == PurposeOf(x.server)
              && (m.caller.expiresAt.Some? ==> m.expiresAt <= m.caller.expiresAt.value)
              && (x.fromCache && m.seconds.Some? && m.receivedAt - m.issuedAt <= EXPIRY_MARGIN_SECONDS ==>
                    x.at < m.issuedAt + m.seconds.value as real)
  {
    hide KeyFor, Run, IsLive, CoerceExpiresIn, ExpiryFor, ByLastUse;
    var s := Run(actions, max);
    AlwaysInv(actions, max);
    assert ServedOk(s, x);
    var m :| m in s.mints && Backs(m, x);
    KeyPinsEverything(m.server, m.caller, x.server, x.caller);
    assert MintOk(s, m);
    if x.fromCache && m.seconds.Some? && m.receivedAt - m.issuedAt <= EXPIRY_MARGIN_SECONDS {
      ServedBeforeExpiry(m.issuedAt, m.receivedAt, x.at, m.seconds.value, m.caller.expiresAt, m.token);
    }
  }

  // ------------------------------------------------------------ forgetting

  ghost predicate Holds(entries: Entries, key: CacheKey) {
    exists e :: e in entries && e.0 == key
  }

  /** The action hands out and stores what a call under `key` fetched. */
  ghost predicate Stores(s: State, a: Action, key: CacheKey) {
    && a.Finish? && a.call in s.calls && s.calls[a.call].fetched.Some?
    && KeyFor(s.calls[a.call].server, s.calls[a.call].caller) == key
  }

  ghost predicate NoneServed(s: State, t: State, key: CacheKey) {
    && s.served <= t.served
    && forall i :: |s.served| <= i < |t.served| ==> KeyFor(t.served[i].server, t.served[i].caller) != key
  }

  /** A cache that does not hold a key neither serves it nor comes to hold it, but by a store. */
  lemma StaysForgotten(s: State, a: Action, key: CacheKey, max: nat)
    requires Inv(s, max) && !Holds(s.entries, key) && !Stores(s, a, key)
    ensures !Holds(Step(s, a, max).entries, key) && NoneServed(s, Step(s, a, max), key)
  {
    hide ByLastUse, EntryOk, MintOk, ServedOk, CallOk, KeyFor, Find, Remove, PutLast, ExpiryFor;
    match a
    case Begin(call, server, caller, now) =>
      LookedKeeps(s.entries, KeyFor(server, caller), now, max);
      hide Looked;
    case Finish(call, now) =>
      if call in s.calls && s.calls[call].fetched.Some? {
        var c := s.calls[call];
        var entry := Entry(c.fetched.value.token, c.fetched.value.expiresAt);
        StoredKeeps(s.entries, KeyFor(c.server, c.caller), entry, max);
        hide OboCache.Stored;
      }
    case _ =>
  }

  /** After an invalidation, no caller is handed a token under that key until a fetch for the key
      is stored: neither from the cache nor fresh. */
  lemma {:induction false} InvalidatedIsGone(actions: seq<Action>, n: nat, m: nat, max: nat)
    requires n < m <= |actions| && actions[n].Invalidate?
    requires forall i :: n < i < m ==>
               !Stores(Run(actions[..i], max), actions[i], KeyFor(actions[n].server, actions[n].caller))
    ensures var key := KeyFor(actions[n].server, actions[n].caller);
            && !Holds(Run(actions[..m], max).entries, key)
            && NoneServed(Run(actions[..n], max), Run(actions[..m], max), key)
    decreases m
  {
    hide Stores, KeyFor, Remove, Run, Inv, Holds, Step;
    var key := KeyFor(actions[n].server, actions[n].caller);
    var last := m - 1;
    RunTo(actions, last, max);
    if last == n {
      Forgotten(Run(actions[..n], max), actions[n].server, actions[n].caller, max);
    } else {
      InvalidatedIsGone(actions, n, last, max);
      AlwaysInv(actions[..last], max);
      StaysForgotten(Run(actions[..last], max), actions[last], key, max);
    }
  }

  lemma RunTo(actions: seq<Action>, last: nat, max: nat)
    requires last < |actions|
    ensures Run(actions[..last + 1], max) == Step(Run(actions[..last], max), actions[last], max)
  {
    assert actions[..last + 1][..last] == actions[..last];
  }

  /** An invalidation takes every token of that key, and none of another caller, server or kind. */
  lemma Forgotten(s: State, server: Server, caller: Caller, max: nat)
    ensures var key, t := KeyFor(server, caller), Step(s, Invalidate(server, caller), max);
            && !Holds(t.entries, key) && NoneServed(s, t, key)
            && forall e :: e in s.entries && e.0 != key ==> e in t.entries
  {
    hide KeyFor, Remove;
  }

  // ------------------------------------------------------------ the session that asks

  /** The bound is on the session a token was fetched with, not on the one that asks for it. A
      served token's cached expiry is within the asking session exactly when it was fetched in
      a session that ends no later, or its lifetime was over by then anyway; a token that was
      not cached always is. */
  lemma WithinSessionIff(actions: seq<Action>, max: nat, x: Served)
    requires x in Run(actions, max).served && x.caller.expiresAt.Some?
    ensures exists m :: m in Run(actions, max).mints && Backs(m, x)
              && (x.expiresAt <= x.caller.expiresAt.value <==>
                    || (m.caller.expiresAt.Some? && m.caller.expiresAt.value <= x.caller.expiresAt.value)
                    || m.receivedAt + CoerceExpiresIn(m.seconds) as real <= x.caller.expiresAt.value)
    ensures !x.fromCache ==> x.expiresAt <= x.caller.expiresAt.value
  {
    hide KeyFor, Run, IsLive, CoerceExpiresIn, ByLastUse;
    var s := Run(actions, max);
    AlwaysInv(actions, max);
    assert ServedOk(s, x);
    var m :| m in s.mints && Backs(m, x);
    assert MintOk(s, m);
  }

  /** A session asked for a token of this server. */
  ghost predicate Began(actions: seq<Action>, server: Server, caller: Caller) {
    exists i :: 0 <= i < |actions| && actions[i].Begin? && actions[i].server == server && actions[i].caller == caller
  }

  ghost predicate AllBegan(actions: seq<Action>, s: State) {
    && (forall c :: c in s.calls ==> Began(actions, s.calls[c].server, s.calls[c].caller))
    && (forall m :: m in s.mints ==> Began(actions, m.server, m.caller))
  }

  lemma BeganMore(actions: seq<Action>, n: nat, server: Server, caller: Caller)
    requires n <= |actions| && Began(actions[..n], server, caller)
    ensures Began(actions, server, caller)
  {
    var i :| 0 <= i < n && actions[..n][i].Begin? && actions[..n][i].server == server &&
      actions[..n][i].caller == caller;
    assert actions[i].Begin?;
  }

  /** Nothing is fetched but for a session that asked. */
  lemma {:induction false} FetchedForAsking(actions: seq<Action>, max: nat)
    ensures AllBegan(actions, Run(actions, max))
    decreases |actions|
  {
    hide Step, Began;
    if |actions| > 0 {
      var last := |actions| - 1;
      FetchedForAsking(actions[..last], max);
      forall server, caller | Began(actions[..last], server, caller)
        ensures Began(actions, server, caller)
      {
        BeganMore(actions, last, server, caller);
      }
      if actions[last].Begin? {
        BeganLast(actions);
      }
      StepBegan(actions, Run(actions[..last], max), actions[last], max);
    }
  }

  lemma StepBegan(actions: seq<Action>, s: State, a: Action, max: nat)
    requires AllBegan(actions, s) && (a.Begin? ==> Began(actions, a.server, a.caller))
    ensures AllBegan(actions, Step(s, a, max))
  {
    hide Looked, OboCache.Stored, KeyFor, CoerceExpiresIn, ExpiryFor, Began, Remove;
  }

  lemma BeganLast(actions: seq<Action>)
    requires |actions| > 0 && actions[|actions| - 1].Begin?
    ensures Began(actions, actions[|actions| - 1].server, actions[|actions| - 1].caller)
  {
  }

  /** In particular, when every session that asks for the same token ends by a time, no token
      served for it is held to be valid past that time. */
  lemma SessionsBoundTokens(actions: seq<Action>, max: nat, x: Served, end: real)
    requires x in Run(actions, max).served
    requires forall i :: 0 <= i < |actions| && actions[i].Begin? &&
                         KeyFor(actions[i].server, actions[i].caller) == KeyFor(x.server, x.caller) ==>
               actions[i].caller.expiresAt.Some? && actions[i].caller.expiresAt.value <= end
    ensures x.expiresAt <= end
  {
    hide KeyFor, Run, IsLive, CoerceExpiresIn, ByLastUse;
    var s := Run(actions, max);
    AlwaysInv(actions, max);
    FetchedForAsking(actions, max);
    assert ServedOk(s, x);
    var m :| m in s.mints && Backs(m, x);
    assert MintOk(s, m) && Began(actions, m.server, m.caller);
    var i :| 0 <= i < |actions| && actions[i].Begin? && actions[i].server == m.server && actions[i].caller == m.caller;
  }

  lemma RunMore(actions: seq<Action>, a: Action, max: nat)
    ensures Run(actions + [a], max) == Step(Run(actions, max), a, max)
  {
    assert (actions + [a])[..|actions|] == actions;
  }

  lemma OneEntry(key: CacheKey, entry: Entry)
    ensures PutLast([], key, entry) == [(key, entry)] && Find([(key, entry)], key) == Some(entry)
  {
  }

  /** Otherwise it can be: a second, shorter session of the same caller is given a token that
      is held to be valid long after the session ends. */
  lemma ShorterSessionIsGivenLongerToken()
    ensures var server := Server("s", "", false, "aud", "", "", "", "", "");
            var long, short := Caller("ann", "idp", Some(1000.0)), Caller("ann", "idp", Some(100.0));
            var run := [Begin(1, server, long, 0.0), Fetched(1, "t", 0.0, Some(900), 0.0), Finish(1, 0.0)];
            Served(server, short, "t", 900.0, 50.0, true) in Run(run + [Begin(2, server, short, 50.0)], 1).served
  {
    hide Run, KeyFor, PutLast, Find, Newest;
    var server := Server("s", "", false, "aud", "", "", "", "", "");
    var long, short := Caller("ann", "idp", Some(1000.0)), Caller("ann", "idp", Some(100.0));
    var key, entry := KeyFor(server, long), Entry("t", 900.0);
    KeyPinsEverything(server, long, server, short);
    OneEntry(key, entry);
    var a0, a1, a2, a3 := Begin(1, server, long, 0.0), Fetched(1, "t", 0.0, Some(900), 0.0), Finish(1, 0.0),
      Begin(2, server, short, 50.0);
    RunNothing(1);
    RunMore([], a0, 1);
    RunMore([a0], a1, 1);
    RunMore([a0, a1], a2, 1);
    RunMore([a0, a1, a2], a3, 1);
    assert [] + [a0] == [a0] && [a0] + [a1] == [a0, a1] && [a0, a1] + [a2] == [a0, a1, a2];
    var s1 := Step(INIT(), a0, 1);
    NothingFound(key);
    assert s1.calls == map[1 := Call(server, long, None)] && s1.entries == [];
    var s2 := Step(s1, a1, 1);
    assert s2.calls[1].fetched.value.expiresAt == 900.0;
    var s3 := Step(s2, a2, 1);
    assert s3.entries == [(key, entry)];
  }

  lemma NothingFound(key: CacheKey)
    ensures Find([], key) == None
  {
  }

  lemma RunNothing(max: nat)
    ensures Run([], max) == INIT()
  {
  }
}
