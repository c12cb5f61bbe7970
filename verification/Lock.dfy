/** The in-process TTL lock: lazy expiry, tokens, and what holds over every interleaving of its calls. */
module Lock {
  import opened Common

  type Key = string
  type Token = nat
  type Time = int

  datatype Entry = Entry(token: Token, expiresAt: Time)

  type Held = map<Key, Entry>

  /** `next` stands for randomUUID: every token is handed out once. */
  datatype LockState = LockState(held: Held, next: Token)

  datatype Event = Acquire(key: Key, ttl: Time, now: Time) | Release(key: Key, token: Token, now: Time)

  datatype Reply = Granted(token: Token) | Refused | Released | Ignored

  predicate IsLive(held: Held, key: Key, now: Time) {
    key in held && held[key].expiresAt > now
  }

  /** The entries still in force at `now`. */
  function Alive(held: Held, now: Time): Held {
    map key | key in held && IsLive(held, key, now) :: held[key]
  }

  // ---------- the lazy lock ----------

  /** Looking a key up drops it when it has expired. */
  function Swept(held: Held, key: Key, now: Time): Held {
    if key in held && !IsLive(held, key, now) then held - {key} else held
  }

  function LazyStep(s: LockState, e: Event): (LockState, Reply) {
    var held := Swept(s.held, e.key, e.now);
    match e
    case Acquire(key, ttl, now) =>
      if key in held then (s.(held := held), Refused)
      else (LockState(held[key := Entry(s.next, now + ttl)], s.next + 1), Granted(s.next))
    case Release(key, token, now) =>
      if key in held && held[key].token == token then (s.(held := held - {key}), Released)
      else (s.(held := held), Ignored)
  }

  // ---------- the lock that forgets keys the instant they expire ----------

  function EagerStep(s: LockState, e: Event): (LockState, Reply) {
    var held := Alive(s.held, e.now);
    match e
    case Acquire(key, ttl, now) =>
      if key in held then (s.(held := held), Refused)
      else (LockState(Alive(held[key := Entry(s.next, now + ttl)], now), s.next + 1), Granted(s.next))
    case Release(key, token, now) =>
      if key in held && held[key].token == token then (s.(held := held - {key}), Released)
      else (s.(held := held), Ignored)
  }

  function LazyRun(trace: seq<Event>): (LockState, seq<Reply>) {
    if trace == [] then (LockState(map[], 0), [])
    else
      var (s, replies) := LazyRun(trace[..|trace| - 1]);
      var (s', reply) := LazyStep(s, trace[|trace| - 1]);
      (s', replies + [reply])
  }

  function EagerRun(trace: seq<Event>): (LockState, seq<Reply>) {
    if trace == [] then (LockState(map[], 0), [])
    else
      var (s, replies) := EagerRun(trace[..|trace| - 1]);
      var (s', reply) := EagerStep(s, trace[|trace| - 1]);
      (s', replies + [reply])
  }

  /** The clock never runs backwards. */
  ghost predicate Clocked(trace: seq<Event>) {
    forall i, j :: 0 <= i < j < |trace| ==> trace[i].now <= trace[j].now
  }

  lemma AliveLater(held: Held, now: Time, later: Time)
    requires now <= later
    ensures Alive(Alive(held, now), later) == Alive(held, later)
  {}

  lemma StepsAgree(lazy: LockState, eager: LockState, e: Event)
    requires Alive(lazy.held, e.now) == Alive(eager.held, e.now) && lazy.next == eager.next
    ensures LazyStep(lazy, e).1 == EagerStep(eager, e).1
    ensures LazyStep(lazy, e).0.next == EagerStep(eager, e).0.next
    ensures Alive(LazyStep(lazy, e).0.held, e.now) == EagerStep(eager, e).0.held
  {
    var held := Swept(lazy.held, e.key, e.now);
    assert Alive(held, e.now) == Alive(lazy.held, e.now);
    assert e.key in held <==> e.key in Alive(lazy.held, e.now);
  }

  /** No caller can tell the lazily expiring map from one that drops keys the instant they expire. */
  lemma {:induction false} LazyIsEager(trace: seq<Event>)
    requires Clocked(trace)
    ensures LazyRun(trace).1 == EagerRun(trace).1
    ensures LazyRun(trace).0.next == EagerRun(trace).0.next
    ensures trace != [] ==> Alive(LazyRun(trace).0.held, trace[|trace| - 1].now) == EagerRun(trace).0.held
  {
    if trace != [] {
      var init, e := trace[..|trace| - 1], trace[|trace| - 1];
      LazyIsEager(init);
      var lazy, eager := LazyRun(init).0, EagerRun(init).0;
      if init != [] {
        var before := init[|init| - 1].now;
        AliveLater(lazy.held, before, e.now);
      }
      StepsAgree(lazy, eager, e);
    }
  }

  // ---------- exclusion ----------

  function ReplyTo(trace: seq<Event>, i: nat): Reply
    requires i < |trace|
  {
    LazyStep(LazyRun(trace[..i]).0, trace[i]).1
  }

  /** Replies do not depend on what comes later. */
  lemma {:induction false} RepliesAreReplies(trace: seq<Event>)
    ensures |LazyRun(trace).1| == |trace|
    ensures forall i :: 0 <= i < |trace| ==> LazyRun(trace).1[i] == ReplyTo(trace, i)
  {
    if trace != [] {
      var n := |trace| - 1;
      RepliesAreReplies(trace[..n]);
      forall i | 0 <= i < n ensures LazyRun(trace).1[i] == ReplyTo(trace, i) {
        assert trace[..n][..i] == trace[..i];
        assert LazyRun(trace).1[i] == LazyRun(trace[..n]).1[i] == ReplyTo(trace[..n], i);
      }
    }
  }

  /** The token granted at `i` is not given back at any step strictly between `i` and `n`. */
  ghost predicate NotReturned(trace: seq<Event>, i: nat, n: nat, token: Token)
    requires i < n <= |trace|
  {
    forall k :: i < k < n ==> trace[k] != Release(trace[i].key, token, trace[k].now)
  }

  /** Tokens in the map were handed out. */
  lemma {:induction false} TokensAreIssued(trace: seq<Event>)
    ensures forall key :: key in LazyRun(trace).0.held ==> LazyRun(trace).0.held[key].token < LazyRun(trace).0.next
  {
    if trace != [] { TokensAreIssued(trace[..|trace| - 1]); }
  }

  lemma {:induction false} NextGrows(trace: seq<Event>, i: nat)
    requires i <= |trace|
    ensures LazyRun(trace[..i]).0.next <= LazyRun(trace).0.next
  {
    if i == |trace| {
      TakeAll(trace);
    } else {
      NextGrows(trace[..|trace| - 1], i);
      assert trace[..|trace| - 1][..i] == trace[..i];
    }
  }

  /** While a grant is neither returned nor expired, the lock is its own. */
  lemma {:induction false} HeldThroughout(trace: seq<Event>, i: nat, n: nat, token: Token)
    requires i < n <= |trace| && Clocked(trace)
    requires trace[i].Acquire? && ReplyTo(trace, i) == Granted(token)
    requires NotReturned(trace, i, n, token)
    requires trace[n - 1].now < trace[i].now + trace[i].ttl
    ensures var held := LazyRun(trace[..n]).0.held;
            trace[i].key in held && held[trace[i].key] == Entry(token, trace[i].now + trace[i].ttl)
  {
    assert trace[..n][..n - 1] == trace[..n - 1];
    if n > i + 1 {
      HeldThroughout(trace, i, n - 1, token);
      assert trace[n - 1] != Release(trace[i].key, token, trace[n - 1].now);
    }
  }

  /** Nobody else gets the lock until the holder returns it or its TTL has run out. */
  lemma NoSecondGrant(trace: seq<Event>, i: nat, n: nat, token: Token)
    requires i < n < |trace| && Clocked(trace)
    requires trace[i].Acquire? && ReplyTo(trace, i) == Granted(token)
    requires NotReturned(trace, i, n, token)
    requires trace[n].now < trace[i].now + trace[i].ttl
    requires trace[n].Acquire? && trace[n].key == trace[i].key
    ensures ReplyTo(trace, n) == Refused
  {
    HeldThroughout(trace, i, n, token);
  }

  /** A critical section: a grant at `from`, and the first return of its token at `to`. */
  datatype Section = Section(from: nat, to: nat, token: Token)

  ghost predicate IsSection(trace: seq<Event>, s: Section) {
    && s.from < s.to < |trace|
    && trace[s.from].Acquire? && ReplyTo(trace, s.from) == Granted(s.token)
    && trace[s.to] == Release(trace[s.from].key, s.token, trace[s.to].now)
    && NotReturned(trace, s.from, s.to, s.token)
  }

  predicate InTime(trace: seq<Event>, s: Section)
    requires s.from < s.to < |trace| && trace[s.from].Acquire?
  {
    trace[s.to].now < trace[s.from].now + trace[s.from].ttl
  }

  /** Sections of one key that end within their TTL never overlap, and each return is acknowledged. */
  lemma SectionsNeverOverlap(trace: seq<Event>, a: Section, b: Section)
    requires Clocked(trace) && IsSection(trace, a) && IsSection(trace, b)
    requires trace[a.from].key == trace[b.from].key && a.from < b.from
    requires InTime(trace, a)
    ensures a.to < b.from
    ensures ReplyTo(trace, a.to) == Released
  {
    HeldThroughout(trace, a.from, a.to, a.token);
    if b.from < a.to {
      NoSecondGrant(trace, a.from, b.from, a.token);
    }
  }

  /** Once another caller got the lock, returning the old token does nothing at all. */
  lemma StaleReturnChangesNothing(trace: seq<Event>, i: nat, j: nat, n: nat, token: Token, other: Token)
    requires i < j < n < |trace| && Clocked(trace)
    requires trace[i].Acquire? && ReplyTo(trace, i) == Granted(token)
    requires trace[j].Acquire? && trace[j].key == trace[i].key && ReplyTo(trace, j) == Granted(other)
    requires trace[n] == Release(trace[i].key, token, trace[n].now)
    ensures ReplyTo(trace, n) == Ignored
    ensures Alive(LazyRun(trace[..n + 1]).0.held, trace[n].now) == Alive(LazyRun(trace[..n]).0.held, trace[n].now)
  {
    assert trace[..n + 1][..n] == trace[..n];
    NeverAgain(trace, i, j, n, token);
    var held := LazyRun(trace[..n]).0.held;
    assert Alive(Swept(held, trace[i].key, trace[n].now), trace[n].now) == Alive(held, trace[n].now);
  }

  /** A token that lost its key never holds it again. */
  lemma {:induction false} NeverAgain(trace: seq<Event>, i: nat, j: nat, n: nat, token: Token)
    requires i < j < n <= |trace|
    requires trace[i].Acquire? && ReplyTo(trace, i) == Granted(token)
    requires trace[j].Acquire? && trace[j].key == trace[i].key && ReplyTo(trace, j).Granted?
    ensures var s := LazyRun(trace[..n]).0;
            token < s.next && (trace[i].key in s.held ==> s.held[trace[i].key].token != token)
  {
    assert trace[..n][..n - 1] == trace[..n - 1];
    assert trace[..i + 1][..i] == trace[..i];
    if n > j + 1 {
      NeverAgain(trace, i, j, n - 1, token);
    } else {
      NextGrows(trace[..j], i + 1);
      assert trace[..j][..i + 1] == trace[..i + 1];
    }
  }

  /** A release with any token but the live holder's own changes nothing a caller can see. */
  lemma ReleaseNeedsTheLiveToken(s: LockState, key: Key, token: Token, now: Time)
    ensures var (s', reply) := LazyStep(s, Release(key, token, now));
            var holds := IsLive(s.held, key, now) && s.held[key].token == token;
            && (reply == Released <==> holds)
            && Alive(s'.held, now) == if holds then Alive(s.held, now) - {key} else Alive(s.held, now)
  {}

  // ---------- exactly when a call succeeds ----------

  /** The grant at `i` still stands at `now`: it was not returned before step `n`, and its TTL is not over. */
  ghost predicate Stands(trace: seq<Event>, i: nat, n: nat, token: Token, now: Time) {
    && i < n <= |trace|
    && trace[i].Acquire? && ReplyTo(trace, i) == Granted(token)
    && NotReturned(trace, i, n, token)
    && now < trace[i].now + trace[i].ttl
  }

  /** The entry is the grant at `i`, not returned since. */
  ghost predicate IsGrant(trace: seq<Event>, i: nat, n: nat, key: Key, entry: Entry) {
    && i < n <= |trace|
    && trace[i].Acquire? && trace[i].key == key && ReplyTo(trace, i) == Granted(entry.token)
    && entry.expiresAt == trace[i].now + trace[i].ttl
    && NotReturned(trace, i, n, entry.token)
  }

  /** Every entry of the map is the trace of a grant that was not returned. */
  lemma {:induction false} EntriesAreGrants(trace: seq<Event>, n: nat, key: Key) returns (i: nat)
    requires n <= |trace| && key in LazyRun(trace[..n]).0.held
    ensures IsGrant(trace, i, n, key, LazyRun(trace[..n]).0.held[key])
  {
    assert trace[..n][..n - 1] == trace[..n - 1];
    var before, e := LazyRun(trace[..n - 1]).0, trace[n - 1];
    if e.Acquire? && e.key == key && ReplyTo(trace, n - 1).Granted? {
      i := n - 1;
    } else {
      i := EntriesAreGrants(trace, n - 1, key);
    }
  }

  /** An attempt is refused exactly while an earlier grant of the key is neither returned nor past its TTL. */
  lemma RefusedExactlyWhen(trace: seq<Event>, n: nat)
    requires Clocked(trace) && n < |trace| && trace[n].Acquire?
    ensures ReplyTo(trace, n).Granted? || ReplyTo(trace, n) == Refused
    ensures ReplyTo(trace, n) == Refused <==>
              exists i: nat, token ::
                i < n && trace[i].key == trace[n].key && Stands(trace, i, n, token, trace[n].now)
  {
    var held, key := LazyRun(trace[..n]).0.held, trace[n].key;
    if ReplyTo(trace, n) == Refused {
      var i := EntriesAreGrants(trace, n, key);
      assert Stands(trace, i, n, held[key].token, trace[n].now);
    }
    forall i: nat, token | i < n && trace[i].key == key && Stands(trace, i, n, token, trace[n].now)
      ensures ReplyTo(trace, n) == Refused
    {
      NoSecondGrant(trace, i, n, token);
    }
  }

  /** A return is acknowledged exactly when it carries the token of a grant of the key that still stands. */
  lemma ReleasedExactlyWhen(trace: seq<Event>, n: nat)
    requires Clocked(trace) && n < |trace| && trace[n].Release?
    ensures ReplyTo(trace, n) == Released || ReplyTo(trace, n) == Ignored
    ensures ReplyTo(trace, n) == Released <==>
              exists i: nat ::
                i < n && trace[i].key == trace[n].key && Stands(trace, i, n, trace[n].token, trace[n].now)
  {
    var held, key, token := LazyRun(trace[..n]).0.held, trace[n].key, trace[n].token;
    if ReplyTo(trace, n) == Released {
      var i := EntriesAreGrants(trace, n, key);
      assert Stands(trace, i, n, token, trace[n].now);
    }
    forall i: nat | i < n && trace[i].key == key && Stands(trace, i, n, token, trace[n].now)
      ensures ReplyTo(trace, n) == Released
    {
      HeldThroughout(trace, i, n, token);
    }
  }

  /** No token is granted twice. */
  lemma GrantsDiffer(trace: seq<Event>, i: nat, j: nat)
    requires i < j < |trace| && ReplyTo(trace, i).Granted? && ReplyTo(trace, j).Granted?
    ensures ReplyTo(trace, i).token != ReplyTo(trace, j).token
  {
    assert trace[..i + 1][..i] == trace[..i];
    assert trace[..j][..i + 1] == trace[..i + 1];
    NextGrows(trace[..j], i + 1);
  }

  // ---------- the lock object ----------

  class InProcessLock {
    var held: Held
    var next: Token

    ghost function State(): LockState
      reads this
    {
      LockState(held, next)
    }

    constructor ()
      ensures State() == LazyRun([]).0
    {
      held, next := map[], 0;
    }

    /** The entry of a key that is still in force; an expired one is dropped on the way. */
    method Live(key: Key, now: Time) returns (entry: Option<Entry>)
      modifies this`held
      ensures held == Swept(old(held), key, now)
      ensures entry == (if IsLive(old(held), key, now) then Some(old(held)[key]) else None)
    {
      if key !in held {
        return None;
      }
      if held[key].expiresAt <= now {
        held := held - {key};
        return None;
      }
      return Some(held[key]);
    }

    method TryAcquire(key: Key, ttl: Time, now: Time) returns (token: Option<Token>)
      modifies this
      ensures State() == LazyStep(old(State()), Acquire(key, ttl, now)).0
      ensures LazyStep(old(State()), Acquire(key, ttl, now)).1
              == (if token.Some? then Granted(token.value) else Refused)
    {
      var entry := Live(key, now);
      if entry.Some? {
        return None;
      }
      token := Some(next);
      held := held[key := Entry(next, now + ttl)];
      next := next + 1;
    }

    method TryRelease(key: Key, token: Token, now: Time) returns (released: bool)
      modifies this
      ensures State() == LazyStep(old(State()), Release(key, token, now)).0
      ensures LazyStep(old(State()), Release(key, token, now)).1 == (if released then Released else Ignored)
    {
      var entry := Live(key, now);
      if entry.Some? && entry.value.token == token {
        held := held - {key};
        return true;
      }
      return false;
    }
  }
}
