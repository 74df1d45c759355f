/**
 * The sliding-window rate limiter.
 *
 * `Limiter` keeps, per client, a list of recent admission times, drops clients whose lists have gone stale,
 * and cuts down to the most recently active ones when it holds too many. The lemmas compare its runs with
 * the full log of admissions, which it does not keep.
 */
module RateLimit {
  import opened Prelude

  /** A client address; only its identity matters. */
  type Client = nat

  type Store = map<Client, seq<Time>>

  datatype Config = Config(maxRequests: int, window: real, maxClients: nat)

  // ---- Lists of admission times --------------------------------------------------------------

  /** The entries after `start`, in their order. */
  function Recent(ts: seq<Time>, start: Time): (r: seq<Time>)
    ensures |r| <= |ts|
  {
    if ts == [] then []
    else (if ts[0] > start then [ts[0]] else []) + Recent(ts[1..], start)
  }

  function Latest(ts: seq<Time>): Time
    requires ts != []
  {
    if |ts| == 1 then ts[0]
    else var rest := Latest(ts[1..]); if ts[0] > rest then ts[0] else rest
  }

  lemma {:induction false} LatestIsGreatest(ts: seq<Time>)
    requires ts != []
    ensures Latest(ts) in ts && forall i :: 0 <= i < |ts| ==> ts[i] <= Latest(ts)
  {
    if |ts| > 1 {
      LatestIsGreatest(ts[1..]);
      assert ts == [ts[0]] + ts[1..];
    }
  }

  predicate Sorted(ts: seq<Time>) {
    forall i, j :: 0 <= i < j < |ts| ==> ts[i] <= ts[j]
  }

  /** How many entries lie in the half-open window (lo, hi]. */
  function CountIn(ts: seq<Time>, lo: Time, hi: Time): nat {
    if ts == [] then 0
    else CountIn(ts[..|ts| - 1], lo, hi) + (if lo < ts[|ts| - 1] <= hi then 1 else 0)
  }

  // ---- One request ---------------------------------------------------------------------------

  /** The clients whose lists are not stale. */
  function Survivors(store: Store, start: Time): set<Client> {
    set c | c in store && Recent(store[c], start) != []
  }

  function Restrict(store: Store, clients: set<Client>): Store {
    map c | c in store && c in clients :: store[c]
  }

  /** None of `spared` was active less recently than one of the others. */
  ghost predicate PrefersRecent(store: Store, candidates: set<Client>, spared: set<Client>) {
    forall c, d {:trigger Latest(store[c]), Latest(store[d])} ::
      c in spared && d in candidates - spared && c in store && d in store && store[c] != [] && store[d] != [] ==>
        Latest(store[d]) <= Latest(store[c])
  }

  /**
   * `spared` is what may be left of the candidates when they are cut down to `n`: all of them if they fit, else
   * `n` of the most recently active. Ties may go either way.
   */
  ghost predicate IsCut(store: Store, candidates: set<Client>, spared: set<Client>, n: nat) {
    && spared <= candidates
    && |spared| == (if |candidates| <= n then |candidates| else n)
    && PrefersRecent(store, candidates, spared)
  }

  /** The client's list as the request finds it. */
  function Window(store: Store, client: Client, start: Time): seq<Time> {
    if client in store then Recent(store[client], start) else []
  }

  predicate Admits(cfg: Config, store: Store, client: Client, now: Time) {
    |Window(store, client, now - cfg.window)| < cfg.maxRequests
  }

  function Serve(cfg: Config, store: Store, client: Client, now: Time): Store {
    if Admits(cfg, store, client, now) then store[client := Window(store, client, now - cfg.window) + [now]]
    else store
  }

  predicate AnyAfter(ts: seq<Time>, start: Time) {
    exists i :: 0 <= i < |ts| && ts[i] > start
  }

  /** Each of the one's entries is matched by one of the other's that is no earlier. */
  predicate NoneNewer(ts: seq<Time>, us: seq<Time>) {
    forall i :: 0 <= i < |ts| ==> exists j :: 0 <= j < |us| && ts[i] <= us[j]
  }

  lemma {:induction false} RecentIsEmpty(ts: seq<Time>, start: Time)
    ensures Recent(ts, start) != [] <==> AnyAfter(ts, start)
  {
    if ts != [] {
      RecentIsEmpty(ts[1..], start);
      assert forall i :: 1 <= i < |ts| ==> ts[i] == ts[1..][i - 1];
      if ts[0] <= start && AnyAfter(ts, start) {
        var i :| 0 <= i < |ts| && ts[i] > start;
        assert ts[1..][i - 1] > start;
      }
      if j :| 0 <= j < |ts[1..]| && ts[1..][j] > start {
        assert ts[j + 1] > start;
      }
    }
  }

  lemma NoLater(ts: seq<Time>, us: seq<Time>)
    requires ts != [] && us != [] && Latest(ts) <= Latest(us)
    ensures NoneNewer(ts, us)
  {
    LatestIsGreatest(ts);
    LatestIsGreatest(us);
  }

  /**
   * What an eviction comes to, in entries. Who stays has an entry inside the window; who has one and goes makes
   * room for a full store in which everyone has been active as recently; and there is no more than room.
   */
  lemma EvictionMeans(store: Store, start: Time, spared: set<Client>, n: nat, c: Client)
    requires (forall d :: d in store ==> store[d] != []) && c in store
    requires IsCut(store, Survivors(store, start), spared, n)
    ensures |Restrict(store, spared)| <= n
    ensures c in Restrict(store, spared) ==> AnyAfter(store[c], start)
    ensures c !in Restrict(store, spared) && AnyAfter(store[c], start) ==>
              && |Restrict(store, spared)| == n
              && forall d :: d in Restrict(store, spared) ==> NoneNewer(store[c], store[d])
  {
    RecentIsEmpty(store[c], start);
    assert Restrict(store, spared).Keys == spared;
    if c !in spared && AnyAfter(store[c], start) {
      if |Survivors(store, start)| <= n {
        SmallerSet(spared, Survivors(store, start));
      }
      forall d | d in spared ensures NoneNewer(store[c], store[d]) {
        assert Latest(store[c]) <= Latest(store[d]);
        NoLater(store[c], store[d]);
      }
    }
  }

  class Limiter {
    const cfg: Config
    var requests: Store

    ghost predicate Valid()
      reads this
    {
      forall c :: c in requests ==> requests[c] != []
    }

    constructor (cfg: Config)
      ensures Valid() && this.cfg == cfg && requests == map[]
    {
      this.cfg := cfg;
      requests := map[];
    }

    /** Drop stale clients one by one, then keep the most recently active if there are still too many. */
    method Evict(start: Time) returns (ghost spared: set<Client>)
      requires Valid()
      modifies this`requests
      ensures Valid()
      ensures IsCut(old(requests), Survivors(old(requests), start), spared, cfg.maxClients)
      ensures requests == Restrict(old(requests), spared)
    {
      DropStale(start);
      spared := requests.Keys;
      if |requests.Keys| > cfg.maxClients {
        var mostRecent := MostRecentOf(requests);
        requests := Restrict(requests, mostRecent);
        spared := mostRecent;
      }
    }

    method DropStale(start: Time)
      requires Valid()
      modifies this`requests
      ensures Valid() && requests.Keys == Survivors(old(requests), start)
      ensures requests == Restrict(old(requests), Survivors(old(requests), start))
    {
      var store := requests;
      var stale := set c | c in store && Recent(store[c], start) == [];
      while stale != {}
        invariant stale <= store.Keys <= requests.Keys
        invariant forall c :: c in store ==> store[c] == requests[c]
        invariant forall c :: c in requests ==> (c in stale <==> c in store && Recent(requests[c], start) == [])
        invariant forall c :: c in requests && Recent(requests[c], start) != [] ==> c in store
        decreases stale
      {
        var c :| c in stale;
        store := store - {c};
        stale := stale - {c};
      }
      requests := store;
    }

    /** Select the most recently active client, again and again. */
    method MostRecentOf(store: Store) returns (spared: set<Client>)
      requires |store.Keys| > cfg.maxClients && forall c :: c in store ==> store[c] != []
      ensures IsCut(store, store.Keys, spared, cfg.maxClients)
    {
      spared := {};
      var rest := store.Keys;
      while |spared| < cfg.maxClients
        invariant spared !! rest && spared + rest == store.Keys && |spared| <= cfg.maxClients
        invariant PrefersRecent(store, store.Keys, spared)
        decreases cfg.maxClients - |spared|
      {
        assert |spared + rest| == |spared| + |rest|;
        var c := MostRecent(store, rest);
        assert store.Keys - (spared + {c}) == rest - {c};
        spared := spared + {c};
        rest := rest - {c};
      }
    }

    method MostRecent(store: Store, among: set<Client>) returns (best: Client)
      requires among != {} && among <= store.Keys && forall c :: c in store ==> store[c] != []
      ensures best in among && forall c :: c in among ==> Latest(store[c]) <= Latest(store[best])
    {
      var todo := among;
      best :| best in todo;
      while todo != {}
        invariant todo <= among && best in among
        invariant forall c :: c in among - todo ==> Latest(store[c]) <= Latest(store[best])
        decreases todo
      {
        var c :| c in todo;
        if Latest(store[c]) > Latest(store[best]) {
          best := c;
        }
        todo := todo - {c};
      }
    }

    /** Requests outside the API pass untouched; the others are counted, and those over the limit rejected. */
    method Dispatch(underApi: bool, client: Client, now: Time) returns (admitted: bool, ghost spared: set<Client>)
      requires Valid()
      modifies this`requests
      ensures Valid()
      ensures !underApi ==> admitted && requests == old(requests)
      ensures underApi ==>
                var kept := Restrict(old(requests), spared);
                && IsCut(old(requests), Survivors(old(requests), now - cfg.window), spared, cfg.maxClients)
                && admitted == Admits(cfg, kept, client, now)
                && requests == Serve(cfg, kept, client, now)
    {
      if !underApi {
        return true, {};
      }
      var start := now - cfg.window;
      spared := Evict(start);
      var timestamps := if client in requests then Recent(requests[client], start) else [];
      if |timestamps| >= cfg.maxRequests {
        admitted := false;
      } else {
        requests := requests[client := timestamps + [now]];
        admitted := true;
      }
    }
  }

  // ---- Runs ----------------------------------------------------------------------------------

  /** One API request: who, when, and whom the eviction before it spares. */
  datatype Request = Request(client: Client, now: Time, spared: set<Client>)

  /**
   * Where a run stands: what the limiter stores; and, for the record only, every client's full admission log,
   * the clients the capacity cut has ever dropped, and the time of the last request.
   */
  datatype History = History(store: Store, logs: map<Client, seq<Time>>, cut: set<Client>, now: Time)

  function LogOf(h: History, client: Client): seq<Time> {
    if client in h.logs then h.logs[client] else []
  }

  /** What the eviction leaves. */
  function Kept(h: History, r: Request): Store {
    Restrict(h.store, r.spared)
  }

  predicate Admitted(cfg: Config, h: History, r: Request) {
    Admits(cfg, Kept(h, r), r.client, r.now)
  }

  /** The request does not come earlier than the last, and the eviction is one the limiter can make. */
  ghost predicate CanFollow(cfg: Config, h: History, r: Request) {
    h.now <= r.now && IsCut(h.store, Survivors(h.store, r.now - cfg.window), r.spared, cfg.maxClients)
  }

  /** The clients dropped at the request although their lists were not stale. */
  function CutAt(cfg: Config, h: History, r: Request): set<Client> {
    Survivors(h.store, r.now - cfg.window) - r.spared
  }

  function Advance(cfg: Config, h: History, r: Request): History {
    History(
      Serve(cfg, Kept(h, r), r.client, r.now),
      if Admitted(cfg, h, r) then h.logs[r.client := LogOf(h, r.client) + [r.now]] else h.logs,
      h.cut + CutAt(cfg, h, r),
      r.now)
  }

  /** The clock reads `origin` when the limiter is made. */
  function After(cfg: Config, origin: Time, rs: seq<Request>): History {
    if rs == [] then History(map[], map[], {}, origin)
    else Advance(cfg, After(cfg, origin, rs[..|rs| - 1]), rs[|rs| - 1])
  }

  ghost predicate IsRun(cfg: Config, origin: Time, rs: seq<Request>) {
    forall n :: 0 <= n < |rs| ==> CanFollow(cfg, After(cfg, origin, rs[..n]), rs[n])
  }

  /** How many of the log's admissions fall in (t - window, t]. */
  function WindowCount(cfg: Config, log: seq<Time>, t: Time): nat {
    CountIn(log, t - cfg.window, t)
  }

  /** The decision of a limiter that keeps the whole log. */
  predicate LogAdmits(cfg: Config, log: seq<Time>, now: Time) {
    WindowCount(cfg, log, now) < cfg.maxRequests
  }

  // ---- Counting ------------------------------------------------------------------------------

  lemma {:induction false} CountAppend(a: seq<Time>, b: seq<Time>, lo: Time, hi: Time)
    ensures CountIn(a + b, lo, hi) == CountIn(a, lo, hi) + CountIn(b, lo, hi)
  {
    if b == [] {
      assert a + b == a;
    } else {
      assert (a + b)[..|a + b| - 1] == a + b[..|b| - 1];
      CountAppend(a, b[..|b| - 1], lo, hi);
    }
  }

  lemma {:induction false} CountNone(ts: seq<Time>, lo: Time, hi: Time)
    requires forall i :: 0 <= i < |ts| ==> !(lo < ts[i] <= hi)
    ensures CountIn(ts, lo, hi) == 0
  {
    if ts != [] {
      CountNone(ts[..|ts| - 1], lo, hi);
    }
  }

  lemma {:induction false} CountAll(ts: seq<Time>, lo: Time, hi: Time)
    requires forall i :: 0 <= i < |ts| ==> lo < ts[i] <= hi
    ensures CountIn(ts, lo, hi) == |ts|
  {
    if ts != [] {
      CountAll(ts[..|ts| - 1], lo, hi);
    }
  }

  lemma {:induction false} CountNarrower(ts: seq<Time>, lo: Time, hi: Time, lo': Time, hi': Time)
    requires lo' <= lo && hi <= hi'
    ensures CountIn(ts, lo, hi) <= CountIn(ts, lo', hi')
  {
    if ts != [] {
      CountNarrower(ts[..|ts| - 1], lo, hi, lo', hi');
    }
  }

  lemma {:induction false} AllRecent(ts: seq<Time>, start: Time)
    requires forall i :: 0 <= i < |ts| ==> ts[i] > start
    ensures Recent(ts, start) == ts
  {
    if ts != [] {
      AllRecent(ts[1..], start);
    }
  }

  lemma {:induction false} NoneRecent(ts: seq<Time>, start: Time)
    requires forall i :: 0 <= i < |ts| ==> ts[i] <= start
    ensures Recent(ts, start) == []
  {
    if ts != [] {
      NoneRecent(ts[1..], start);
    }
  }

  lemma {:induction false} RecentAppend(a: seq<Time>, b: seq<Time>, start: Time)
    ensures Recent(a + b, start) == Recent(a, start) + Recent(b, start)
  {
    if a == [] {
      assert a + b == b;
    } else {
      assert (a + b)[1..] == a[1..] + b;
      RecentAppend(a[1..], b, start);
    }
  }

  lemma {:induction false} StaleMeansOld(ts: seq<Time>, start: Time)
    requires Recent(ts, start) == []
    ensures forall i :: 0 <= i < |ts| ==> ts[i] <= start
  {
    if ts != [] {
      StaleMeansOld(ts[1..], start);
      assert forall i :: 1 <= i < |ts| ==> ts[i] == ts[1..][i - 1];
    }
  }

  /** Where the entries of a sorted list first exceed `start`. */
  lemma {:induction false} Cutoff(ts: seq<Time>, start: Time) returns (n: nat)
    requires Sorted(ts)
    ensures n <= |ts|
    ensures (forall i :: 0 <= i < n ==> ts[i] <= start) && (forall i :: n <= i < |ts| ==> ts[i] > start)
  {
    n := |ts|;
    if ts != [] && ts[|ts| - 1] > start {
      n := Cutoff(ts[..|ts| - 1], start);
    }
  }

  lemma RecentSplit(a: seq<Time>, b: seq<Time>, start: Time, now: Time)
    requires forall i :: 0 <= i < |a| ==> a[i] <= start
    requires forall i :: 0 <= i < |b| ==> start < b[i] <= now
    ensures Recent(a + b, start) == b && CountIn(a + b, start, now) == |b|
  {
    RecentAppend(a, b, start);
    NoneRecent(a, start);
    AllRecent(b, start);
    CountAppend(a, b, start, now);
    CountNone(a, start, now);
    CountAll(b, start, now);
  }

  /** A sorted list is its entries up to `start`, then the recent ones; the latter count its window. */
  lemma RecentSplits(ts: seq<Time>, start: Time, now: Time) returns (older: seq<Time>)
    requires Sorted(ts) && forall i :: 0 <= i < |ts| ==> ts[i] <= now
    ensures ts == older + Recent(ts, start)
    ensures forall i :: 0 <= i < |older| ==> older[i] <= start
    ensures |Recent(ts, start)| == CountIn(ts, start, now)
  {
    var n := Cutoff(ts, start);
    older := ts[..n];
    RecentSplit(older, ts[n..], start, now);
    assert ts == older + ts[n..];
  }

  // ---- What every run keeps ------------------------------------------------------------------

  /** What the limiter stores for the client, nothing if it does not know it. */
  function Held(store: Store, client: Client): seq<Time> {
    if client in store then store[client] else []
  }

  predicate NoneAfter(ts: seq<Time>, t: Time) {
    forall i :: 0 <= i < |ts| ==> ts[i] <= t
  }

  /** The log is what the limiter has forgotten, then what it holds. */
  ghost predicate Splits(cfg: Config, gone: seq<Time>, held: seq<Time>, log: seq<Time>, now: Time) {
    log == gone + held && NoneAfter(log, now) && |held| <= AtLeastZero(cfg.maxRequests)
  }

  function AtLeastZero(n: int): int {
    if n < 0 then 0 else n
  }

  /** What is held is a suffix of the log, of limited length. */
  ghost predicate Holding(cfg: Config, held: seq<Time>, log: seq<Time>, now: Time) {
    exists gone :: Splits(cfg, gone, held, log, now)
  }

  /** And nothing forgotten is still inside the window. */
  ghost predicate Complete(cfg: Config, held: seq<Time>, log: seq<Time>, now: Time) {
    exists gone :: Splits(cfg, gone, held, log, now) && NoneAfter(gone, now - cfg.window)
  }

  /** The limiter forgets all it held. */
  lemma ForgetAll(cfg: Config, gone: seq<Time>, held: seq<Time>, log: seq<Time>, now: Time)
    requires Splits(cfg, gone, held, log, now)
    ensures Splits(cfg, log, [], log, now)
    ensures NoneAfter(gone, now - cfg.window) && NoneAfter(held, now - cfg.window) ==> NoneAfter(log, now - cfg.window)
  {
    assert log == log + [];
  }

  lemma SortedPart(gone: seq<Time>, held: seq<Time>, now: Time)
    requires Sorted(gone + held) && NoneAfter(gone + held, now)
    ensures Sorted(held) && NoneAfter(held, now)
  {
    assert forall i :: 0 <= i < |held| ==> held[i] == (gone + held)[|gone| + i];
  }

  /** What it counts is at most what the log has in the window, and equal if nothing is missing. */
  lemma WindowCounts(cfg: Config, gone: seq<Time>, held: seq<Time>, log: seq<Time>, now: Time)
    requires Splits(cfg, gone, held, log, now) && Sorted(log)
    ensures |Recent(held, now - cfg.window)| <= CountIn(log, now - cfg.window, now)
    ensures NoneAfter(gone, now - cfg.window) ==>
              |Recent(held, now - cfg.window)| == CountIn(log, now - cfg.window, now)
  {
    var start := now - cfg.window;
    SortedPart(gone, held, now);
    var _ := RecentSplits(held, start, now);
    CountAppend(gone, held, start, now);
    if NoneAfter(gone, start) {
      CountNone(gone, start, now);
    }
  }

  /** An admission extends the log and what is held of it alike. */
  lemma AdmissionSplits(cfg: Config, gone: seq<Time>, held: seq<Time>, log: seq<Time>, now: Time)
    returns (gone': seq<Time>)
    requires Splits(cfg, gone, held, log, now) && Sorted(log) && |Recent(held, now - cfg.window)| < cfg.maxRequests
    ensures Splits(cfg, gone', Recent(held, now - cfg.window) + [now], log + [now], now)
    ensures NoneAfter(gone, now - cfg.window) ==> NoneAfter(gone', now - cfg.window)
  {
    var start := now - cfg.window;
    SortedPart(gone, held, now);
    var older := RecentSplits(held, start, now);
    gone' := gone + older;
    assert log + [now] == gone' + (Recent(held, start) + [now]);
  }

  lemma AdmissionHolds(cfg: Config, held: seq<Time>, log: seq<Time>, now: Time)
    requires Holding(cfg, held, log, now) && Sorted(log) && |Recent(held, now - cfg.window)| < cfg.maxRequests
    ensures Holding(cfg, Recent(held, now - cfg.window) + [now], log + [now], now)
  {
    var gone :| Splits(cfg, gone, held, log, now);
    var _ := AdmissionSplits(cfg, gone, held, log, now);
  }

  lemma AdmissionCompletes(cfg: Config, held: seq<Time>, log: seq<Time>, now: Time)
    requires Complete(cfg, held, log, now) && Sorted(log) && |Recent(held, now - cfg.window)| < cfg.maxRequests
    ensures Complete(cfg, Recent(held, now - cfg.window) + [now], log + [now], now)
  {
    var gone :| Splits(cfg, gone, held, log, now) && NoneAfter(gone, now - cfg.window);
    var _ := AdmissionSplits(cfg, gone, held, log, now);
  }

  /** What an eviction does to one client's list: keep it, drop it because it is stale, or cut it. */
  lemma EvictionOfOne(cfg: Config, h: History, r: Request, client: Client)
    requires CanFollow(cfg, h, r)
    ensures Held(Kept(h, r), client) == (if client in r.spared then Held(h.store, client) else [])
    ensures client !in r.spared && client !in CutAt(cfg, h, r) ==>
              NoneAfter(Held(h.store, client), r.now - cfg.window)
  {
    if client in h.store && Recent(h.store[client], r.now - cfg.window) == [] {
      StaleMeansOld(h.store[client], r.now - cfg.window);
    }
  }

  lemma HoldingSpelledOut(cfg: Config, held: seq<Time>, log: seq<Time>, now: Time)
    requires Holding(cfg, held, log, now) && Sorted(log)
    ensures NoneAfter(log, now) && Sorted(held) && |held| <= AtLeastZero(cfg.maxRequests)
    ensures |held| <= |log| && held == log[|log| - |held|..]
  {
    var gone :| Splits(cfg, gone, held, log, now);
    SortedPart(gone, held, now);
  }

  lemma KeepOrForgetHolds(cfg: Config, held: seq<Time>, left: seq<Time>, log: seq<Time>, earlier: Time, now: Time)
    requires earlier <= now && Holding(cfg, held, log, earlier) && (left == held || left == [])
    ensures Holding(cfg, left, log, now)
  {
    var gone :| Splits(cfg, gone, held, log, earlier);
    assert Splits(cfg, gone, held, log, now);
    ForgetAll(cfg, gone, held, log, now);
  }

  lemma KeepOrForgetCompletes(cfg: Config, held: seq<Time>, left: seq<Time>, log: seq<Time>, earlier: Time, now: Time)
    requires earlier <= now && Complete(cfg, held, log, earlier)
    requires left == held || (left == [] && NoneAfter(held, now - cfg.window))
    ensures Complete(cfg, left, log, now)
  {
    var gone :| Splits(cfg, gone, held, log, earlier) && NoneAfter(gone, earlier - cfg.window);
    assert Splits(cfg, gone, held, log, now) && NoneAfter(gone, now - cfg.window);
    ForgetAll(cfg, gone, held, log, now);
  }

  /** What an eviction leaves of a client. */
  lemma EvictionHolds(cfg: Config, h: History, r: Request, client: Client)
    requires CanFollow(cfg, h, r) && Holding(cfg, Held(h.store, client), LogOf(h, client), h.now)
    ensures Holding(cfg, Held(Kept(h, r), client), LogOf(h, client), r.now)
  {
    EvictionOfOne(cfg, h, r, client);
    KeepOrForgetHolds(cfg, Held(h.store, client), Held(Kept(h, r), client), LogOf(h, client), h.now, r.now);
  }

  lemma EvictionCompletes(cfg: Config, h: History, r: Request, client: Client)
    requires CanFollow(cfg, h, r) && Complete(cfg, Held(h.store, client), LogOf(h, client), h.now)
    requires client !in CutAt(cfg, h, r)
    ensures Complete(cfg, Held(Kept(h, r), client), LogOf(h, client), r.now)
  {
    EvictionOfOne(cfg, h, r, client);
    KeepOrForgetCompletes(cfg, Held(h.store, client), Held(Kept(h, r), client), LogOf(h, client), h.now, r.now);
  }

  /** What serving the request does to one client's list and log. */
  lemma ServedOne(cfg: Config, h: History, r: Request, client: Client)
    ensures var held, log, h' := Held(Kept(h, r), client), LogOf(h, client), Advance(cfg, h, r);
            if r.client == client && Admitted(cfg, h, r)
            then && |Recent(held, r.now - cfg.window)| < cfg.maxRequests
                 && Held(h'.store, client) == Recent(held, r.now - cfg.window) + [r.now]
                 && LogOf(h', client) == log + [r.now]
            else Held(h'.store, client) == held && LogOf(h', client) == log
  {
  }

  lemma ServeHolds(cfg: Config, h: History, r: Request, client: Client)
    requires Holding(cfg, Held(Kept(h, r), client), LogOf(h, client), r.now) && Sorted(LogOf(h, client))
    ensures Holding(cfg, Held(Advance(cfg, h, r).store, client), LogOf(Advance(cfg, h, r), client), r.now)
  {
    ServedOne(cfg, h, r, client);
    if r.client == client && Admitted(cfg, h, r) {
      AdmissionHolds(cfg, Held(Kept(h, r), client), LogOf(h, client), r.now);
    }
  }

  lemma ServeCompletes(cfg: Config, h: History, r: Request, client: Client)
    requires Complete(cfg, Held(Kept(h, r), client), LogOf(h, client), r.now) && Sorted(LogOf(h, client))
    ensures Complete(cfg, Held(Advance(cfg, h, r).store, client), LogOf(Advance(cfg, h, r), client), r.now)
  {
    ServedOne(cfg, h, r, client);
    if r.client == client && Admitted(cfg, h, r) {
      AdmissionCompletes(cfg, Held(Kept(h, r), client), LogOf(h, client), r.now);
    }
  }

  // ---- Decisions against the full log --------------------------------------------------------

  lemma HoldingCounts(cfg: Config, held: seq<Time>, log: seq<Time>, now: Time)
    requires Holding(cfg, held, log, now) && Sorted(log)
    ensures |Recent(held, now - cfg.window)| <= WindowCount(cfg, log, now)
    ensures Complete(cfg, held, log, now) ==> |Recent(held, now - cfg.window)| == WindowCount(cfg, log, now)
  {
    var gone :| Splits(cfg, gone, held, log, now);
    WindowCounts(cfg, gone, held, log, now);
    if Complete(cfg, held, log, now) {
      var all_ :| Splits(cfg, all_, held, log, now) && NoneAfter(all_, now - cfg.window);
      WindowCounts(cfg, all_, held, log, now);
    }
  }

  /** A rejection is one the full log would make too, and for a complete client so is every decision. */
  lemma AdmitsFromHeld(cfg: Config, h: History, r: Request, log: seq<Time>)
    requires Holding(cfg, Held(Kept(h, r), r.client), log, r.now) && Sorted(log)
    ensures !Admitted(cfg, h, r) ==> !LogAdmits(cfg, log, r.now)
    ensures Complete(cfg, Held(Kept(h, r), r.client), log, r.now) ==>
              (Admitted(cfg, h, r) <==> LogAdmits(cfg, log, r.now))
  {
    HoldingCounts(cfg, Held(Kept(h, r), r.client), log, r.now);
    assert Window(Kept(h, r), r.client, r.now - cfg.window) == Recent(Held(Kept(h, r), r.client), r.now - cfg.window);
  }

  lemma RejectionIsJustified(cfg: Config, h: History, r: Request)
    requires CanFollow(cfg, h, r) && Sorted(LogOf(h, r.client))
    requires Holding(cfg, Held(h.store, r.client), LogOf(h, r.client), h.now)
    ensures !Admitted(cfg, h, r) ==> !LogAdmits(cfg, LogOf(h, r.client), r.now)
  {
    EvictionHolds(cfg, h, r, r.client);
    AdmitsFromHeld(cfg, h, r, LogOf(h, r.client));
  }

  /** As long as the client was never cut, every decision is the full log's. */
  lemma DecisionIsTheLogs(cfg: Config, h: History, r: Request)
    requires CanFollow(cfg, h, r) && Sorted(LogOf(h, r.client)) && r.client !in CutAt(cfg, h, r)
    requires Holding(cfg, Held(h.store, r.client), LogOf(h, r.client), h.now)
    requires Complete(cfg, Held(h.store, r.client), LogOf(h, r.client), h.now)
    ensures Admitted(cfg, h, r) <==> LogAdmits(cfg, LogOf(h, r.client), r.now)
  {
    EvictionHolds(cfg, h, r, r.client);
    EvictionCompletes(cfg, h, r, r.client);
    AdmitsFromHeld(cfg, h, r, LogOf(h, r.client));
  }

  lemma {:induction false} CountUpTo(ts: seq<Time>, lo: Time, hi: Time, last: Time)
    requires NoneAfter(ts, last)
    ensures CountIn(ts, lo, hi) <= CountIn(ts, lo, last)
  {
    if ts != [] {
      CountUpTo(ts[..|ts| - 1], lo, hi, last);
    }
  }

  // ---- The invariant of every run ------------------------------------------------------------

  /** For one client: what is stored ends its log; and unless it was ever cut, nothing is missing inside the window. */
  ghost predicate Sound(cfg: Config, h: History, client: Client) {
    && (client in h.store ==> h.store[client] != [])
    && Sorted(LogOf(h, client))
    && Holding(cfg, Held(h.store, client), LogOf(h, client), h.now)
    && (client !in h.cut ==> Complete(cfg, Held(h.store, client), LogOf(h, client), h.now))
  }

  lemma StoredStayNonEmpty(cfg: Config, h: History, r: Request, client: Client)
    requires CanFollow(cfg, h, r) && (client in h.store ==> h.store[client] != [])
    ensures client in Advance(cfg, h, r).store ==> Advance(cfg, h, r).store[client] != []
  {
  }

  lemma LogStaysSorted(cfg: Config, h: History, r: Request, client: Client)
    requires h.now <= r.now && Sorted(LogOf(h, client)) && NoneAfter(LogOf(h, client), h.now)
    ensures Sorted(LogOf(Advance(cfg, h, r), client))
  {
  }

  lemma SoundStep(cfg: Config, h: History, r: Request, client: Client)
    requires CanFollow(cfg, h, r) && Sound(cfg, h, client)
    ensures Sound(cfg, Advance(cfg, h, r), client)
  {
    StoredStayNonEmpty(cfg, h, r, client);
    HoldingSpelledOut(cfg, Held(h.store, client), LogOf(h, client), h.now);
    LogStaysSorted(cfg, h, r, client);
    EvictionHolds(cfg, h, r, client);
    ServeHolds(cfg, h, r, client);
    if client !in Advance(cfg, h, r).cut {
      EvictionCompletes(cfg, h, r, client);
      ServeCompletes(cfg, h, r, client);
    }
  }

  lemma EmptyIsSound(cfg: Config, origin: Time, client: Client)
    ensures Sound(cfg, After(cfg, origin, []), client)
  {
    assert Splits(cfg, [], [], [], origin) && NoneAfter([], origin - cfg.window);
  }

  lemma RunPrefix(cfg: Config, origin: Time, rs: seq<Request>, n: nat)
    requires n <= |rs| && IsRun(cfg, origin, rs)
    ensures IsRun(cfg, origin, rs[..n])
  {
    forall k | 0 <= k < n ensures CanFollow(cfg, After(cfg, origin, rs[..n][..k]), rs[..n][k]) {
      assert rs[..n][..k] == rs[..k];
    }
  }

  /** Every client of every run is sound, evictions and cuts included. */
  lemma {:induction false} RunIsSound(cfg: Config, origin: Time, rs: seq<Request>, client: Client)
    requires IsRun(cfg, origin, rs)
    ensures Sound(cfg, After(cfg, origin, rs), client)
  {
    if rs == [] {
      EmptyIsSound(cfg, origin, client);
    } else {
      var n := |rs| - 1;
      RunPrefix(cfg, origin, rs, n);
      RunIsSound(cfg, origin, rs[..n], client);
      SoundStep(cfg, After(cfg, origin, rs[..n]), rs[n], client);
    }
  }

  /**
   * What is stored for a client, in every run: a non-empty sorted list, at most max_requests long, that is the
   * end of its admission log. So in every run a rejection is one the full log justifies.
   */
  lemma {:induction false} StoredList(cfg: Config, origin: Time, rs: seq<Request>, client: Client)
    requires IsRun(cfg, origin, rs) && client in After(cfg, origin, rs).store
    ensures var h := After(cfg, origin, rs); var held, log := h.store[client], LogOf(h, client);
            held != [] && Sorted(held) && |held| <= cfg.maxRequests && |held| <= |log| && held == log[|log| - |held|..]
  {
    RunIsSound(cfg, origin, rs, client);
    var h := After(cfg, origin, rs);
    HoldingSpelledOut(cfg, h.store[client], LogOf(h, client), h.now);
  }

  lemma {:induction false} RejectionsAreJustified(cfg: Config, origin: Time, rs: seq<Request>, n: nat)
    requires IsRun(cfg, origin, rs) && n < |rs| && !Admitted(cfg, After(cfg, origin, rs[..n]), rs[n])
    ensures !LogAdmits(cfg, LogOf(After(cfg, origin, rs[..n]), rs[n].client), rs[n].now)
  {
    RunPrefix(cfg, origin, rs, n);
    RunIsSound(cfg, origin, rs[..n], rs[n].client);
    RejectionIsJustified(cfg, After(cfg, origin, rs[..n]), rs[n]);
  }

  lemma ServedIsSmall(cfg: Config, h: History, r: Request)
    requires CanFollow(cfg, h, r)
    ensures |Advance(cfg, h, r).store| <= cfg.maxClients + 1
  {
    SubsetSize(Advance(cfg, h, r).store.Keys, r.spared + {r.client});
  }

  /** The limiter never holds more than max_clients + 1 clients. */
  lemma {:induction false} StoreIsBounded(cfg: Config, origin: Time, rs: seq<Request>)
    requires IsRun(cfg, origin, rs)
    ensures |After(cfg, origin, rs).store| <= cfg.maxClients + 1
  {
    if rs != [] {
      ServedIsSmall(cfg, After(cfg, origin, rs[..|rs| - 1]), rs[|rs| - 1]);
    }
  }

  // ---- The rate, cuts included ---------------------------------------------------------------

  /** When the capacity cut struck the client. */
  function CutTimes(cfg: Config, origin: Time, rs: seq<Request>, client: Client): seq<Time> {
    if rs == [] then []
    else
      var front, r := rs[..|rs| - 1], rs[|rs| - 1];
      CutTimes(cfg, origin, front, client) + CutTime(cfg, After(cfg, origin, front), r, client)
  }

  function CutTime(cfg: Config, h: History, r: Request, client: Client): seq<Time> {
    if client in CutAt(cfg, h, r) then [r.now] else []
  }

  /** The client's admission log, parted at its latest cut. */
  datatype Trail = Trail(before: seq<Time>, since: seq<Time>)

  function Evicted(cfg: Config, h: History, r: Request, client: Client, tr: Trail): Trail {
    if client in CutAt(cfg, h, r) then Trail(tr.before + tr.since, []) else tr
  }

  function Served(cfg: Config, h: History, r: Request, client: Client, tr: Trail): Trail {
    if r.client == client && Admitted(cfg, h, r) then tr.(since := tr.since + [r.now]) else tr
  }

  function TrailOf(cfg: Config, origin: Time, rs: seq<Request>, client: Client): Trail {
    if rs == [] then Trail([], [])
    else
      var front, r := rs[..|rs| - 1], rs[|rs| - 1];
      var h := After(cfg, origin, front);
      Served(cfg, h, r, client, Evicted(cfg, h, r, client, TrailOf(cfg, origin, front, client)))
  }

  /**
   * The counts at the instant t: since the latest cut no more than max_requests; in all, that much more for each
   * cut inside the window; and before the latest cut, from then on, no more than the cuts account for.
   */
  predicate BoundedAt(cfg: Config, tr: Trail, cuts: seq<Time>, t: Time) {
    var m := AtLeastZero(cfg.maxRequests);
    && WindowCount(cfg, tr.since, t) <= m
    && WindowCount(cfg, tr.before + tr.since, t) <= m * (1 + WindowCount(cfg, cuts, t))
    && (NoneAfter(cuts, t) ==> WindowCount(cfg, tr.before, t) <= m * WindowCount(cfg, cuts, t))
  }

  ghost predicate Bounded(cfg: Config, tr: Trail, cuts: seq<Time>) {
    forall t {:trigger BoundedAt(cfg, tr, cuts, t)} :: BoundedAt(cfg, tr, cuts, t)
  }

  lemma OneMore(ts: seq<Time>, now: Time, lo: Time, hi: Time)
    ensures CountIn(ts + [now], lo, hi) == CountIn(ts, lo, hi) + (if lo < now <= hi then 1 else 0)
  {
    assert (ts + [now])[..|ts|] == ts;
  }

  lemma CutKeepsBound(cfg: Config, tr: Trail, cuts: seq<Time>, now: Time, t: Time)
    requires BoundedAt(cfg, tr, cuts, t) && NoneAfter(tr.before + tr.since, now) && NoneAfter(cuts, now)
    ensures BoundedAt(cfg, Trail(tr.before + tr.since, []), cuts + [now], t)
  {
    var log, lo := tr.before + tr.since, t - cfg.window;
    OneMore(cuts, now, lo, t);
    assert log + [] == log;
    if NoneAfter(cuts + [now], t) {
      assert (cuts + [now])[|cuts|] == now;
      if now <= lo {
        CountNone(log, lo, t);
      }
    }
  }

  /** An admission the log allows keeps every window within bounds. */
  lemma AdmissionIsBounded(cfg: Config, log: seq<Time>, now: Time, t: Time)
    requires NoneAfter(log, now) && LogAdmits(cfg, log, now)
    requires WindowCount(cfg, log, t) <= AtLeastZero(cfg.maxRequests)
    ensures WindowCount(cfg, log + [now], t) <= AtLeastZero(cfg.maxRequests)
  {
    OneMore(log, now, t - cfg.window, t);
    if t - cfg.window < now <= t {
      CountUpTo(log, t - cfg.window, t, now);
      CountNarrower(log, t - cfg.window, now, now - cfg.window, now);
    }
  }

  lemma AdmissionIsBoundedInAll(
      cfg: Config, log: seq<Time>, before: seq<Time>, since: seq<Time>, now: Time, t: Time, m: int, k: nat)
    requires log == before + since && WindowCount(cfg, log, t) <= m * (1 + k) && WindowCount(cfg, since + [now], t) <= m
    requires now <= t ==> WindowCount(cfg, before, t) <= m * k
    ensures WindowCount(cfg, before + (since + [now]), t) <= m * (1 + k)
  {
    assert m * (1 + k) == m + m * k;
    if now <= t {
      CountAppend(before, since + [now], t - cfg.window, t);
    } else {
      assert before + (since + [now]) == log + [now];
      OneMore(log, now, t - cfg.window, t);
    }
  }

  lemma AdmissionKeepsBound(cfg: Config, tr: Trail, cuts: seq<Time>, now: Time, t: Time)
    requires BoundedAt(cfg, tr, cuts, t) && NoneAfter(tr.before + tr.since, now) && NoneAfter(cuts, now)
    requires LogAdmits(cfg, tr.since, now)
    ensures BoundedAt(cfg, tr.(since := tr.since + [now]), cuts, t)
  {
    assert forall i :: 0 <= i < |tr.since| ==> tr.since[i] == (tr.before + tr.since)[|tr.before| + i];
    AdmissionIsBounded(cfg, tr.since, now, t);
    AdmissionIsBoundedInAll(cfg, tr.before + tr.since, tr.before, tr.since, now, t, AtLeastZero(cfg.maxRequests),
                            WindowCount(cfg, cuts, t));
  }

  /** The trail is the log's, nothing admitted since the latest cut is missing, and the bounds hold. */
  ghost predicate Tracked(cfg: Config, h: History, client: Client, tr: Trail, cuts: seq<Time>) {
    && LogOf(h, client) == tr.before + tr.since
    && Complete(cfg, Held(h.store, client), tr.since, h.now)
    && NoneAfter(cuts, h.now) && Bounded(cfg, tr, cuts)
  }

  /** Between the eviction and the admission. */
  ghost predicate HalfTracked(cfg: Config, h: History, r: Request, client: Client, tr: Trail, cuts: seq<Time>) {
    && LogOf(h, client) == tr.before + tr.since
    && Complete(cfg, Held(Kept(h, r), client), tr.since, r.now)
    && NoneAfter(cuts, r.now) && Bounded(cfg, tr, cuts)
  }

  lemma EvictionTracks(cfg: Config, h: History, r: Request, client: Client, tr: Trail, cuts: seq<Time>)
    requires CanFollow(cfg, h, r) && Tracked(cfg, h, client, tr, cuts) && NoneAfter(LogOf(h, client), h.now)
    ensures HalfTracked(cfg, h, r, client, Evicted(cfg, h, r, client, tr), cuts + CutTime(cfg, h, r, client))
  {
    EvictionOfOne(cfg, h, r, client);
    if client in CutAt(cfg, h, r) {
      assert Splits(cfg, [], [], [], r.now) && NoneAfter([], r.now - cfg.window);
      assert tr.before + tr.since + [] == tr.before + tr.since;
      forall t ensures BoundedAt(cfg, Trail(tr.before + tr.since, []), cuts + [r.now], t) {
        assert BoundedAt(cfg, tr, cuts, t);
        CutKeepsBound(cfg, tr, cuts, r.now, t);
      }
    } else {
      assert cuts + [] == cuts;
      KeepOrForgetCompletes(cfg, Held(h.store, client), Held(Kept(h, r), client), tr.since, h.now, r.now);
    }
  }

  /** The decision is that of a limiter that keeps the log since the client's latest cut. */
  lemma DecidesBySince(cfg: Config, h: History, r: Request, tr: Trail, cuts: seq<Time>)
    requires HalfTracked(cfg, h, r, r.client, tr, cuts) && Sorted(tr.since)
    ensures Admitted(cfg, h, r) <==> LogAdmits(cfg, tr.since, r.now)
  {
    var gone :| Splits(cfg, gone, Held(Kept(h, r), r.client), tr.since, r.now) && NoneAfter(gone, r.now - cfg.window);
    AdmitsFromHeld(cfg, h, r, tr.since);
  }

  lemma ServingTracks(cfg: Config, h: History, r: Request, client: Client, tr: Trail, cuts: seq<Time>)
    requires HalfTracked(cfg, h, r, client, tr, cuts) && Sorted(tr.since) && NoneAfter(LogOf(h, client), r.now)
    ensures Tracked(cfg, Advance(cfg, h, r), client, Served(cfg, h, r, client, tr), cuts)
  {
    ServedOne(cfg, h, r, client);
    if r.client == client && Admitted(cfg, h, r) {
      DecidesBySince(cfg, h, r, tr, cuts);
      AdmissionCompletes(cfg, Held(Kept(h, r), client), tr.since, r.now);
      assert tr.before + (tr.since + [r.now]) == LogOf(h, client) + [r.now];
      forall t ensures BoundedAt(cfg, tr.(since := tr.since + [r.now]), cuts, t) {
        assert BoundedAt(cfg, tr, cuts, t);
        AdmissionKeepsBound(cfg, tr, cuts, r.now, t);
      }
    }
  }

  lemma SinceIsSorted(log: seq<Time>, tr: Trail)
    requires Sorted(log) && log == tr.before + tr.since
    ensures Sorted(tr.since)
  {
    assert forall i :: 0 <= i < |tr.since| ==> tr.since[i] == log[|tr.before| + i];
  }

  lemma TrackedStep(cfg: Config, h: History, r: Request, client: Client, tr: Trail, cuts: seq<Time>)
    requires CanFollow(cfg, h, r) && Sound(cfg, h, client) && Tracked(cfg, h, client, tr, cuts)
    ensures Tracked(cfg, Advance(cfg, h, r), client, Served(cfg, h, r, client, Evicted(cfg, h, r, client, tr)),
                    cuts + CutTime(cfg, h, r, client))
  {
    HoldingSpelledOut(cfg, Held(h.store, client), LogOf(h, client), h.now);
    EvictionTracks(cfg, h, r, client, tr, cuts);
    SinceIsSorted(LogOf(h, client), Evicted(cfg, h, r, client, tr));
    ServingTracks(cfg, h, r, client, Evicted(cfg, h, r, client, tr), cuts + CutTime(cfg, h, r, client));
  }

  lemma EmptyIsTracked(cfg: Config, origin: Time, client: Client)
    ensures Tracked(cfg, After(cfg, origin, []), client, Trail([], []), [])
  {
    assert Splits(cfg, [], [], [], origin) && NoneAfter([], origin - cfg.window);
    var empty: seq<Time> := [];
    assert empty + empty == empty;
  }

  lemma {:induction false} AlwaysTracked(cfg: Config, origin: Time, rs: seq<Request>, client: Client)
    requires IsRun(cfg, origin, rs)
    ensures Tracked(cfg, After(cfg, origin, rs), client, TrailOf(cfg, origin, rs, client),
                    CutTimes(cfg, origin, rs, client))
  {
    if rs == [] {
      EmptyIsTracked(cfg, origin, client);
    } else {
      var n := |rs| - 1;
      var front := rs[..n];
      RunPrefix(cfg, origin, rs, n);
      AlwaysTracked(cfg, origin, front, client);
      RunIsSound(cfg, origin, front, client);
      TrackedStep(cfg, After(cfg, origin, front), rs[n], client,
                  TrailOf(cfg, origin, front, client), CutTimes(cfg, origin, front, client));
    }
  }

  /** Per window, max_requests admissions and as many again for each cut; so max_requests where there is no cut. */
  predicate WithinRate(cfg: Config, log: seq<Time>, cuts: seq<Time>, t: Time) {
    var m := AtLeastZero(cfg.maxRequests);
    && WindowCount(cfg, log, t) <= m * (1 + WindowCount(cfg, cuts, t))
    && (WindowCount(cfg, cuts, t) == 0 ==> WindowCount(cfg, log, t) <= m)
  }

  lemma TrackedIsBounded(cfg: Config, h: History, client: Client, tr: Trail, cuts: seq<Time>, t: Time)
    requires Tracked(cfg, h, client, tr, cuts)
    ensures WithinRate(cfg, LogOf(h, client), cuts, t)
  {
    assert BoundedAt(cfg, tr, cuts, t);
  }

  /**
   * The rate bound. For every client and at every instant t whatsoever, the admissions in (t - window, t] are at
   * most max_requests when no cut of the client falls in that window, however often it was cut before, and in
   * general max_requests times one more than the cuts inside the window.
   */
  lemma {:induction false} RateIsBounded(cfg: Config, origin: Time, rs: seq<Request>, client: Client, t: Time)
    requires IsRun(cfg, origin, rs)
    ensures WithinRate(cfg, LogOf(After(cfg, origin, rs), client), CutTimes(cfg, origin, rs, client), t)
  {
    AlwaysTracked(cfg, origin, rs, client);
    TrackedIsBounded(cfg, After(cfg, origin, rs), client, TrailOf(cfg, origin, rs, client),
                     CutTimes(cfg, origin, rs, client), t);
  }

  /** And every decision, in every run, is that of a limiter that keeps the log since the client's latest cut. */
  lemma {:induction false} DecisionsSinceCut(cfg: Config, origin: Time, rs: seq<Request>, n: nat)
    requires IsRun(cfg, origin, rs) && n < |rs|
    ensures var h, r := After(cfg, origin, rs[..n]), rs[n];
            Admitted(cfg, h, r)
            <==> LogAdmits(cfg, Evicted(cfg, h, r, r.client, TrailOf(cfg, origin, rs[..n], r.client)).since, r.now)
  {
    RunPrefix(cfg, origin, rs, n);
    AlwaysTracked(cfg, origin, rs[..n], rs[n].client);
    RunIsSound(cfg, origin, rs[..n], rs[n].client);
    DecidesSinceCut(cfg, After(cfg, origin, rs[..n]), rs[n], TrailOf(cfg, origin, rs[..n], rs[n].client),
                    CutTimes(cfg, origin, rs[..n], rs[n].client));
  }

  lemma DecidesSinceCut(cfg: Config, h: History, r: Request, tr: Trail, cuts: seq<Time>)
    requires CanFollow(cfg, h, r) && Sound(cfg, h, r.client) && Tracked(cfg, h, r.client, tr, cuts)
    ensures Admitted(cfg, h, r) <==> LogAdmits(cfg, Evicted(cfg, h, r, r.client, tr).since, r.now)
  {
    HoldingSpelledOut(cfg, Held(h.store, r.client), LogOf(h, r.client), h.now);
    EvictionTracks(cfg, h, r, r.client, tr, cuts);
    SinceIsSorted(LogOf(h, r.client), Evicted(cfg, h, r, r.client, tr));
    DecidesBySince(cfg, h, r, Evicted(cfg, h, r, r.client, tr), cuts + CutTime(cfg, h, r, r.client));
  }

  /** One client of a limiter with room for none, asking n times at once. */
  const NO_ROOM := Config(1, 60.0, 0)

  function Burst(n: nat): seq<Request> {
    if n == 0 then [] else Burst(n - 1) + [Request(0, 0.0, {})]
  }

  ghost predicate Burstable(h: History, cuts: seq<Time>, n: nat) {
    && h.now == 0.0 && h.store == map[0 := [0.0]]
    && WindowCount(NO_ROOM, LogOf(h, 0), 0.0) == n && WindowCount(NO_ROOM, cuts, 0.0) == n - 1
  }

  lemma BurstNext(h: History, cuts: seq<Time>, n: nat)
    requires n > 0 && Burstable(h, cuts, n)
    ensures var r := Request(0, 0.0, {});
            CanFollow(NO_ROOM, h, r) && Burstable(Advance(NO_ROOM, h, r), cuts + CutTime(NO_ROOM, h, r, 0), n + 1)
  {
    var r := Request(0, 0.0, {});
    assert Recent([0.0], -60.0) == [0.0];
    assert Survivors(h.store, -60.0) == {0} && CutAt(NO_ROOM, h, r) == {0};
    assert Kept(h, r) == map[] && Window(Kept(h, r), 0, -60.0) + [0.0] == [0.0];
    assert Advance(NO_ROOM, h, r).store == map[0 := [0.0]];
    OneMore(LogOf(h, 0), 0.0, -60.0, 0.0);
    OneMore(cuts, 0.0, -60.0, 0.0);
  }

  lemma RunNext(cfg: Config, origin: Time, rs: seq<Request>, r: Request)
    requires IsRun(cfg, origin, rs) && CanFollow(cfg, After(cfg, origin, rs), r)
    ensures IsRun(cfg, origin, rs + [r]) && After(cfg, origin, rs + [r]) == Advance(cfg, After(cfg, origin, rs), r)
    ensures forall c :: CutTimes(cfg, origin, rs + [r], c)
                     == CutTimes(cfg, origin, rs, c) + CutTime(cfg, After(cfg, origin, rs), r, c)
  {
    assert (rs + [r])[..|rs|] == rs;
    forall n | 0 <= n < |rs + [r]| ensures CanFollow(cfg, After(cfg, origin, (rs + [r])[..n]), (rs + [r])[n]) {
      if n < |rs| {
        assert (rs + [r])[..n] == rs[..n];
      }
    }
  }

  lemma FirstOfBurst()
    ensures IsRun(NO_ROOM, 0.0, Burst(1))
    ensures Burstable(After(NO_ROOM, 0.0, Burst(1)), CutTimes(NO_ROOM, 0.0, Burst(1), 0), 1)
  {
    var r, h := Request(0, 0.0, {}), After(NO_ROOM, 0.0, []);
    BurstBegins(h);
    RunNext(NO_ROOM, 0.0, [], r);
    assert Burst(1) == [] + [r] == [r];
  }

  lemma BurstBegins(h: History)
    requires h == History(map[], map[], {}, 0.0)
    ensures var r := Request(0, 0.0, {});
            CanFollow(NO_ROOM, h, r) && Burstable(Advance(NO_ROOM, h, r), [] + CutTime(NO_ROOM, h, r, 0), 1)
  {
    OneMore([], 0.0, -60.0, 0.0);
  }

  /** The bound is reached: a cut gives its client the whole allowance back, so that n requests at once all pass. */
  lemma {:induction false} CutsRaiseTheRate(n: nat)
    requires n > 0
    ensures IsRun(NO_ROOM, 0.0, Burst(n))
    ensures WindowCount(NO_ROOM, LogOf(After(NO_ROOM, 0.0, Burst(n)), 0), 0.0) == n
    ensures WindowCount(NO_ROOM, CutTimes(NO_ROOM, 0.0, Burst(n), 0), 0.0) == n - 1
  {
    BurstReached(n);
  }

  lemma {:induction false} BurstReached(n: nat)
    requires n > 0
    ensures IsRun(NO_ROOM, 0.0, Burst(n))
    ensures Burstable(After(NO_ROOM, 0.0, Burst(n)), CutTimes(NO_ROOM, 0.0, Burst(n), 0), n)
  {
    if n == 1 {
      FirstOfBurst();
    } else {
      var rs := Burst(n - 1);
      BurstReached(n - 1);
      BurstNext(After(NO_ROOM, 0.0, rs), CutTimes(NO_ROOM, 0.0, rs, 0), n - 1);
      RunNext(NO_ROOM, 0.0, rs, Request(0, 0.0, {}));
    }
  }

  // ---- The reference limiter -----------------------------------------------------------------

  /** A limiter that keeps every client's whole log, and decides by it; no eviction, no cut. */
  function LogIn(logs: map<Client, seq<Time>>, client: Client): seq<Time> {
    if client in logs then logs[client] else []
  }

  predicate ReferenceAdmits(cfg: Config, logs: map<Client, seq<Time>>, r: Request) {
    LogAdmits(cfg, LogIn(logs, r.client), r.now)
  }

  function ReferenceStep(cfg: Config, logs: map<Client, seq<Time>>, r: Request): map<Client, seq<Time>> {
    if ReferenceAdmits(cfg, logs, r) then logs[r.client := LogIn(logs, r.client) + [r.now]] else logs
  }

  /** The reference limiter's logs after the requests. */
  function Reference(cfg: Config, rs: seq<Request>): map<Client, seq<Time>> {
    if rs == [] then map[] else ReferenceStep(cfg, Reference(cfg, rs[..|rs| - 1]), rs[|rs| - 1])
  }

  /** The clients with an admission inside the window that ends at `now`. */
  function ActiveClients(cfg: Config, logs: map<Client, seq<Time>>, now: Time): set<Client> {
    set c | c in logs && WindowCount(cfg, logs[c], now) > 0
  }

  /** At each request, no more clients are active with the reference limiter than this one has room for. */
  ghost predicate Uncrowded(cfg: Config, rs: seq<Request>) {
    forall n :: 0 <= n < |rs| ==> |ActiveClients(cfg, Reference(cfg, rs[..n]), rs[n].now)| <= cfg.maxClients
  }

  /** A client that survives dropping the stale ones is active. */
  lemma FreshIsActive(cfg: Config, h: History, client: Client, now: Time)
    requires h.now <= now && Holding(cfg, Held(h.store, client), LogOf(h, client), h.now) && Sorted(LogOf(h, client))
    requires client in Survivors(h.store, now - cfg.window)
    ensures client in ActiveClients(cfg, h.logs, now)
  {
    var log := LogOf(h, client);
    var gone :| Splits(cfg, gone, Held(h.store, client), log, h.now);
    assert Splits(cfg, gone, Held(h.store, client), log, now);
    WindowCounts(cfg, gone, Held(h.store, client), log, now);
  }

  lemma RoomMeansNoCut(cfg: Config, h: History, r: Request)
    requires CanFollow(cfg, h, r) && |Survivors(h.store, r.now - cfg.window)| <= cfg.maxClients
    ensures CutAt(cfg, h, r) == {}
  {
    var all_ := Survivors(h.store, r.now - cfg.window);
    if all_ != r.spared {
      SmallerSet(r.spared, all_);
    }
  }

  ghost predicate AllSound(cfg: Config, h: History) {
    forall c {:trigger Sound(cfg, h, c)} :: Sound(cfg, h, c)
  }

  lemma SurvivorsAreActive(cfg: Config, h: History, now: Time)
    requires AllSound(cfg, h) && h.now <= now
    ensures |Survivors(h.store, now - cfg.window)| <= |ActiveClients(cfg, h.logs, now)|
  {
    forall c | c in Survivors(h.store, now - cfg.window) ensures c in ActiveClients(cfg, h.logs, now) {
      assert Sound(cfg, h, c);
      FreshIsActive(cfg, h, c, now);
    }
    SubsetSize(Survivors(h.store, now - cfg.window), ActiveClients(cfg, h.logs, now));
  }

  lemma NoCut(cfg: Config, h: History, r: Request)
    requires AllSound(cfg, h) && CanFollow(cfg, h, r) && |ActiveClients(cfg, h.logs, r.now)| <= cfg.maxClients
    ensures CutAt(cfg, h, r) == {}
  {
    SurvivorsAreActive(cfg, h, r.now);
    RoomMeansNoCut(cfg, h, r);
  }

  /** A client never cut is decided on as by the reference limiter with the same logs. */
  lemma DecidesAlike(cfg: Config, h: History, r: Request)
    requires Sound(cfg, h, r.client) && r.client !in h.cut && CanFollow(cfg, h, r) && CutAt(cfg, h, r) == {}
    ensures Admitted(cfg, h, r) <==> ReferenceAdmits(cfg, h.logs, r)
  {
    DecisionIsTheLogs(cfg, h, r);
  }

  /** The limiter has kept the reference limiter's logs, and never cut anyone. */
  ghost predicate Follows(h: History, logs: map<Client, seq<Time>>) {
    h.logs == logs && h.cut == {}
  }

  lemma FollowsStep(cfg: Config, h: History, logs: map<Client, seq<Time>>, r: Request)
    requires AllSound(cfg, h) && Follows(h, logs) && CanFollow(cfg, h, r)
    requires |ActiveClients(cfg, logs, r.now)| <= cfg.maxClients
    ensures Follows(Advance(cfg, h, r), ReferenceStep(cfg, logs, r))
    ensures Admitted(cfg, h, r) <==> ReferenceAdmits(cfg, logs, r)
  {
    NoCut(cfg, h, r);
    assert Sound(cfg, h, r.client);
    DecidesAlike(cfg, h, r);
  }

  lemma AllSoundAfter(cfg: Config, origin: Time, rs: seq<Request>)
    requires IsRun(cfg, origin, rs)
    ensures AllSound(cfg, After(cfg, origin, rs))
  {
    forall c ensures Sound(cfg, After(cfg, origin, rs), c) {
      RunIsSound(cfg, origin, rs, c);
    }
  }

  lemma {:induction false} FollowsReference(cfg: Config, origin: Time, rs: seq<Request>)
    requires IsRun(cfg, origin, rs) && Uncrowded(cfg, rs)
    ensures Follows(After(cfg, origin, rs), Reference(cfg, rs))
  {
    if rs != [] {
      var n := |rs| - 1;
      RunPrefix(cfg, origin, rs, n);
      UncrowdedPrefix(cfg, rs, n);
      AllSoundAfter(cfg, origin, rs[..n]);
      FollowsReference(cfg, origin, rs[..n]);
      FollowsStep(cfg, After(cfg, origin, rs[..n]), Reference(cfg, rs[..n]), rs[n]);
    }
  }

  lemma UncrowdedPrefix(cfg: Config, rs: seq<Request>, n: nat)
    requires n <= |rs| && Uncrowded(cfg, rs)
    ensures Uncrowded(cfg, rs[..n])
  {
    forall k | 0 <= k < n
      ensures |ActiveClients(cfg, Reference(cfg, rs[..n][..k]), rs[..n][k].now)| <= cfg.maxClients
    {
      assert rs[..n][..k] == rs[..k];
    }
  }

  /** When no more clients than there is room for are active in any window, the capacity cut never strikes. */
  lemma {:induction false} NeverCut(cfg: Config, origin: Time, rs: seq<Request>)
    requires IsRun(cfg, origin, rs) && Uncrowded(cfg, rs)
    ensures After(cfg, origin, rs).cut == {}
  {
    FollowsReference(cfg, origin, rs);
  }

  /**
   * Refinement: under that condition, the limiter and the reference limiter, run side by side on the same
   * requests, make the same decision each time and admit each client at the same moments.
   */
  lemma {:induction false} RefinesFullLog(cfg: Config, origin: Time, rs: seq<Request>, n: nat)
    requires IsRun(cfg, origin, rs) && Uncrowded(cfg, rs) && n < |rs|
    ensures Admitted(cfg, After(cfg, origin, rs[..n]), rs[n]) <==> ReferenceAdmits(cfg, Reference(cfg, rs[..n]), rs[n])
    ensures After(cfg, origin, rs).logs == Reference(cfg, rs)
  {
    FollowsReference(cfg, origin, rs);
    RunPrefix(cfg, origin, rs, n);
    UncrowdedPrefix(cfg, rs, n);
    AllSoundAfter(cfg, origin, rs[..n]);
    FollowsReference(cfg, origin, rs[..n]);
    FollowsStep(cfg, After(cfg, origin, rs[..n]), Reference(cfg, rs[..n]), rs[n]);
  }
}
