/**
 Content hashing off the pipeline thread. Callers hand over a subject and an open descriptor; one worker takes requests
 from a bounded queue; subjects with the same content key share one request. Each method is one critical section, so a
 run of the service is any sequence of them: the worker's two sections are `Take` and `Finish`.
 */
module HashService {
  import opened Text

  datatype Key = Key(dev: nat, inode: nat, size: nat, mtime: nat)
  datatype Subject = Subject(entity: string, pid: nat, generation: nat, path: string, key: Key, event: string)
  datatype Status = Computed | Pending | TooLarge | Unreadable | Skipped
  datatype Hash = Hash(status: Status, digest: string)
  datatype Result = Result(subject: Subject, hash: Hash)
  datatype Request = Request(subject: Subject, fd: int)
  datatype Options = Options(capacity: nat, cacheEntries: nat, maximumWaiters: nat)

  /** An answer and the request it came from, by key. */
  datatype Work = Work(key: Key, hash: Hash)

  type InFlight = map<Key, seq<Subject>>

  // ---- counting ------------------------------------------------------------------------------

  ghost function Times<T>(items: seq<T>, x: T): nat {
    if items == [] then 0 else (if items[0] == x then 1 else 0) + Times(items[1..], x)
  }

  /** How often `x` waits for one of these requests. */
  ghost function Waits(active: seq<Request>, inFlight: InFlight, x: Subject): nat {
    if active == [] then 0
    else
      var key := active[0].subject.key;
      (if key in inFlight then Times(inFlight[key], x) else 0) + Waits(active[1..], inFlight, x)
  }

  /** How often `x` has a result. */
  ghost function Results(results: seq<Result>, x: Subject): nat {
    if results == [] then 0 else (if results[0].subject == x then 1 else 0) + Results(results[1..], x)
  }

  /** How many of these requests hold the descriptor. */
  ghost function Holders(active: seq<Request>, fd: int): nat {
    if active == [] then 0 else (if active[0].fd == fd then 1 else 0) + Holders(active[1..], fd)
  }

  lemma {:induction false} TimesMore<T>(items: seq<T>, y: T, x: T)
    ensures Times(items + [y], x) == Times(items, x) + if y == x then 1 else 0
  {
    var all := items + [y];
    if items == [] {
      assert all[1..] == [];
    } else {
      assert all[1..] == items[1..] + [y];
      TimesMore(items[1..], y, x);
    }
  }

  lemma {:induction false} HoldersMore(active: seq<Request>, r: Request, fd: int)
    ensures Holders(active + [r], fd) == Holders(active, fd) + if r.fd == fd then 1 else 0
  {
    var all := active + [r];
    if active == [] {
      assert all[1..] == [];
    } else {
      assert all[1..] == active[1..] + [r];
      HoldersMore(active[1..], r, fd);
    }
  }

  lemma {:induction false} ResultsMore(results: seq<Result>, r: Result, x: Subject)
    ensures Results(results + [r], x) == Results(results, x) + if r.subject == x then 1 else 0
  {
    var all := results + [r];
    if results == [] {
      assert all[1..] == [];
    } else {
      assert all[1..] == results[1..] + [r];
      ResultsMore(results[1..], r, x);
    }
  }

  lemma {:induction false} ResultsJoin(a: seq<Result>, b: seq<Result>, x: Subject)
    ensures Results(a + b, x) == Results(a, x) + Results(b, x)
    decreases |a|
  {
    if a == [] {
      assert a + b == b;
    } else {
      assert (a + b)[1..] == a[1..] + b;
      ResultsJoin(a[1..], b, x);
    }
  }

  // ---- requests under way --------------------------------------------------------------------

  ghost predicate OneEach(active: seq<Request>) {
    forall i, j :: 0 <= i < j < |active| ==> active[i].subject.key != active[j].subject.key
  }

  /** Requests see only their own keys. */
  lemma {:induction false} WaitsFrame(active: seq<Request>, before: InFlight, after: InFlight, x: Subject)
    requires forall i :: 0 <= i < |active| ==>
      active[i].subject.key in before && active[i].subject.key in after &&
          before[active[i].subject.key] == after[active[i].subject.key]
    ensures Waits(active, before, x) == Waits(active, after, x)
    decreases |active|
  {
    if active != [] { WaitsFrame(active[1..], before, after, x); }
  }

  lemma {:induction false} WaitsJoins(active: seq<Request>, inFlight: InFlight, k: nat, subject: Subject, x: Subject)
    requires (forall i :: 0 <= i < |active| ==> active[i].subject.key in inFlight) && OneEach(active)
    requires k < |active| && active[k].subject.key == subject.key
    ensures Waits(active, inFlight[subject.key := inFlight[subject.key] + [subject]], x) ==
            Waits(active, inFlight, x) + if subject == x then 1 else 0
    decreases |active|
  {
    var after := inFlight[subject.key := inFlight[subject.key] + [subject]];
    TimesMore(inFlight[subject.key], subject, x);
    if k == 0 {
      WaitsFrame(active[1..], inFlight, after, x);
    } else {
      assert active[0].subject.key != active[k].subject.key;
      WaitsJoins(active[1..], inFlight, k - 1, subject, x);
    }
  }

  lemma {:induction false} WaitsMore(active: seq<Request>, inFlight: InFlight, r: Request, x: Subject)
    requires r.subject.key in inFlight
    ensures Waits(active + [r], inFlight, x) == Waits(active, inFlight, x) + Times(inFlight[r.subject.key], x)
    decreases |active|
  {
    var all := active + [r];
    if active == [] {
      assert all[1..] == [];
    } else {
      assert all[1..] == active[1..] + [r] && all[0] == active[0];
      WaitsMore(active[1..], inFlight, r, x);
    }
  }

  ghost predicate HasRequest(active: seq<Request>, key: Key) {
    exists i :: 0 <= i < |active| && active[i].subject.key == key
  }

  /** Between one waiter and the bound, all for this key. */
  ghost predicate WaitersOk(key: Key, waiters: seq<Subject>, options: Options) {
    && 1 <= |waiters| && (|waiters| == 1 || |waiters| <= options.maximumWaiters)
    && forall i :: 0 <= i < |waiters| ==> waiters[i].key == key
  }

  /** Exactly one request for each key in flight, and waiters of that key only. */
  ghost predicate Matched(active: seq<Request>, inFlight: InFlight, options: Options) {
    && OneEach(active)
    && (forall i :: 0 <= i < |active| ==> active[i].subject.key in inFlight)
    && (forall key {:trigger HasRequest(active, key)} :: key in inFlight ==> HasRequest(active, key))
    && (forall key :: key in inFlight ==> WaitersOk(key, inFlight[key], options))
  }

  ghost predicate CacheOk(cache: map<Key, Hash>, order: seq<Key>, entries: nat) {
    NoRepeat(order) && |order| <= entries && forall key :: key in cache <==> key in order
  }

  /** Every answer is the outcome of a request for the same key. */
  ghost predicate Honest(results: seq<Result>, work: set<Work>) {
    forall i :: 0 <= i < |results| ==> Work(results[i].subject.key, results[i].hash) in work
  }

  /** Only final answers are cached. */
  ghost predicate HonestCache(cache: map<Key, Hash>, work: set<Work>) {
    forall key :: key in cache ==>
        Work(key, cache[key]) in work && (cache[key].status == Computed || cache[key].status == TooLarge)
  }

  ghost predicate Accounted(active: seq<Request>, inFlight: InFlight, results: seq<Result>, options: Options,
                            x: Subject, asked: int) {
    Matched(active, inFlight, options) && asked == Waits(active, inFlight, x) + Results(results, x)
  }

  function Active(running: Option<Request>, queue: seq<Request>): seq<Request> {
    if running.Some? then [running.value] + queue else queue
  }

  lemma JoinsRequest(active: seq<Request>, inFlight: InFlight, options: Options, subject: Subject, x: Subject)
    requires Matched(active, inFlight, options) && subject.key in inFlight &&
             |inFlight[subject.key]| < options.maximumWaiters
    ensures var after := inFlight[subject.key := inFlight[subject.key] + [subject]];
            Matched(active, after, options) && Waits(active, after, x) == Waits(active, inFlight, x) + if subject == x
                then 1 else 0
  {
    assert HasRequest(active, subject.key);
    var k :| 0 <= k < |active| && active[k].subject.key == subject.key;
    WaitsJoins(active, inFlight, k, subject, x);
  }

  lemma OneMoreRequest(active: seq<Request>, inFlight: InFlight, options: Options, r: Request, x: Subject)
    requires Matched(active, inFlight, options) && r.subject.key !in inFlight
    ensures var after := inFlight[r.subject.key := [r.subject]];
            Matched(active + [r], after, options) &&
                Waits(active + [r], after, x) == Waits(active, inFlight, x) + if r.subject == x then 1 else 0
  {
    var key := r.subject.key;
    var all, after := active + [r], inFlight[key := [r.subject]];
    WaitsFrame(active, inFlight, after, x);
    WaitsMore(active, after, r, x);
    TimesMore([], r.subject, x);
    assert [] + [r.subject] == [r.subject];
    forall k | k in after
      ensures HasRequest(all, k)
    {
      if k == key {
        assert all[|active|].subject.key == key;
      } else {
        assert HasRequest(active, k);
        var i :| 0 <= i < |active| && active[i].subject.key == k;
        assert all[i].subject.key == k;
      }
    }
  }

  lemma OneRequestLess(active: seq<Request>, inFlight: InFlight, options: Options, x: Subject)
    requires Matched(active, inFlight, options) && active != []
    ensures var key := active[0].subject.key; var after := inFlight - {key};
            key in inFlight && Matched(active[1..], after, options) &&
                Waits(active, inFlight, x) == Times(inFlight[key], x) + Waits(active[1..], after, x)
  {
    var key, rest := active[0].subject.key, active[1..];
    var after := inFlight - {key};
    assert forall i :: 0 <= i < |rest| ==> rest[i] == active[i + 1];
    WaitsFrame(rest, inFlight, after, x);
    forall k | k in after
      ensures HasRequest(rest, k)
    {
      assert HasRequest(active, k);
      var i :| 0 <= i < |active| && active[i].subject.key == k;
      assert rest[i - 1].subject.key == k;
    }
  }

  // ---- the service ---------------------------------------------------------------------------

  /** Everything the service keeps. */
  datatype State = State(queue: seq<Request>, running: Option<Request>, inFlight: InFlight, cache: map<Key, Hash>,
                         order: seq<Key>, finished: seq<Result>, delivered: seq<Result>, asked: nat, handed: nat,
                         closed: nat, work: set<Work>)

  /**
   One request for each key in flight; everybody told to wait waits for exactly one request or has exactly one
   result; a descriptor handed over is closed, once, or belongs to exactly one request; the cache keeps its bound.
   */
  ghost predicate ServiceOk(options: Options, anyone: Subject, descriptor: int, s: State) {
    && |s.queue| <= options.capacity && CacheOk(s.cache, s.order, options.cacheEntries)
    && Accounted(Active(s.running, s.queue), s.inFlight, s.finished, options, anyone,
         s.asked - Results(s.delivered, anyone))
    && s.handed == s.closed + Holders(Active(s.running, s.queue), descriptor)
    && Honest(s.finished, s.work) && Honest(s.delivered, s.work) && HonestCache(s.cache, s.work)
    && forall key :: key in s.cache ==> key !in s.inFlight
  }

  /** The running request is done: everybody who waits for its key is told, and its descriptor is closed. */
  ghost function Finished(s: State, descriptor: int, hash: Hash): State
    requires s.running.Some? && s.running.value.subject.key in s.inFlight
  {
    var first := s.running.value;
    var key := first.subject.key;
    s.(running := None, inFlight := s.inFlight - {key}, finished := s.finished + Told(s.inFlight[key], hash),
       closed := s.closed + (if first.fd == descriptor then 1 else 0), work := s.work + {Work(key, hash)})
  }

  lemma DeliverOk(options: Options, anyone: Subject, descriptor: int, s: State, hash: Hash)
    requires ServiceOk(options, anyone, descriptor, s) && s.running.Some?
    ensures s.running.value.subject.key in s.inFlight &&
            ServiceOk(options, anyone, descriptor, Finished(s, descriptor, hash))
  {
    var first, key := s.running.value, s.running.value.subject.key;
    FirstTold(first, s.queue, s.inFlight, s.finished, options, anyone, s.asked - Results(s.delivered, anyone), s.work,
        hash);
    FirstHolds(first, s.queue, descriptor);
    MoreWork(s.delivered, s.cache, s.work, Work(key, hash));
  }

  lemma RememberOk(options: Options, anyone: Subject, descriptor: int, s: State, cache: map<Key, Hash>, order: seq<Key>,
                   key: Key, hash: Hash)
    requires ServiceOk(options, anyone, descriptor, s) && CacheOk(cache, order, options.cacheEntries) &&
             key !in s.inFlight
    requires Work(key, hash) in s.work && (hash.status == Computed || hash.status == TooLarge)
    requires forall k :: k in cache ==> (k in s.cache && cache[k] == s.cache[k]) || (k == key && cache[k] == hash)
    ensures ServiceOk(options, anyone, descriptor, s.(cache := cache, order := order))
  {
  }

  /**
   `anyone` and `descriptor` are fixed but arbitrary: what holds of them holds of every subject and every descriptor.
   */
  /** The last of them, this many at most. */
  function Latest(keys: seq<Key>, n: nat): seq<Key> { if |keys| <= n then keys else keys[|keys| - n..] }

  lemma LatestStay(cache: map<Key, Hash>, order: seq<Key>, key: Key, hash: Hash, n: nat)
    requires CacheOk(cache, order, n) && key !in cache
    ensures var all, added := order + [key], cache[key := hash];
            if |all| <= n then CacheOk(added, all, n)
            else CacheOk(added - {all[0]}, all[1..], n) && all[1..] == Latest(all, n) && (n > 0 ==> all[0] != key)
  {
    var all, added := order + [key], cache[key := hash];
    assert NoRepeat(all) && forall k :: k in added <==> k in all;
    if |all| > n { OldestLeaves(added, all); }
  }

  class Service {
    const options: Options
    ghost const anyone: Subject
    ghost const descriptor: int
    var queue: seq<Request>
    var running: Option<Request>
    var inFlight: InFlight
    var cache: map<Key, Hash>
    var order: seq<Key>
    var finished: seq<Result>
    ghost var delivered: seq<Result>
    ghost var asked: nat   // how often `anyone` was told to wait
    ghost var handed: nat  // how often `descriptor` was handed over
    ghost var closed: nat  // and closed
    ghost var work: set<Work>

    ghost function Now(): State
      reads this
    {
      State(queue, running, inFlight, cache, order, finished, delivered, asked, handed, closed, work)
    }

    ghost predicate Valid()
      reads this
    {
      ServiceOk(options, anyone, descriptor, Now())
    }

    constructor (options: Options, ghost anyone: Subject, ghost descriptor: int)
      ensures Valid() && asked == handed == 0 && this.options == options && this.anyone == anyone &&
              this.descriptor == descriptor
    {
      this.options, this.anyone, this.descriptor := options, anyone, descriptor;
      queue, running, inFlight, cache, order, finished := [], None, map[], map[], [], [];
      delivered, asked, handed, closed, work := [], 0, 0, 0, {};
      new;
      assert Active(running, queue) == [];
    }

    /** A descriptor that is taken over and closed at once. */
    method Close(fd: int)
      requires Valid()
      modifies this`handed, this`closed
      ensures Valid() && handed == old(handed) + if fd == descriptor && fd >= 0 then 1 else 0
    {
      ghost var once := if fd == descriptor && fd >= 0 then 1 else 0;
      handed, closed := handed + once, closed + once;
    }

    /** The request that is already under way covers this content. */
    method Join(subject: Subject)
      requires Valid() && subject.key in inFlight && |inFlight[subject.key]| < options.maximumWaiters
      modifies this`inFlight, this`asked
      ensures Valid() && asked == old(asked) + if subject == anyone then 1 else 0
      ensures inFlight == old(inFlight)[subject.key := old(inFlight)[subject.key] + [subject]]
    {
      JoinsRequest(Active(running, queue), inFlight, options, subject, anyone);
      inFlight := inFlight[subject.key := inFlight[subject.key] + [subject]];
      asked := asked + if subject == anyone then 1 else 0;
    }

    method Enqueue(subject: Subject, fd: int)
      requires Valid() && subject.key !in inFlight && subject.key !in cache && fd >= 0 && |queue| < options.capacity
      modifies this`queue, this`inFlight, this`asked, this`handed
      ensures Valid() && asked == old(asked) + (if subject == anyone then 1 else 0) &&
              handed == old(handed) + if fd == descriptor then 1 else 0
      ensures queue == old(queue) + [Request(subject, fd)] && inFlight == old(inFlight)[subject.key := [subject]]
    {
      var request := Request(subject, fd);
      ghost var before := Active(running, queue);
      OneMoreRequest(before, inFlight, options, request, anyone);
      HoldersMore(before, request, descriptor);
      inFlight := inFlight[subject.key := [subject]];
      queue := queue + [request];
      assert Active(running, queue) == before + [request];
      asked, handed := asked + (if subject == anyone then 1 else 0), handed + if fd == descriptor then 1 else 0;
    }

    /** `submit`: an answer at once, or `Pending` and one more who waits. */
    method Submit(subject: Subject, fd: int) returns (answer: Hash)
      requires Valid()
      modifies this`queue, this`inFlight, this`asked, this`handed, this`closed
      ensures Valid()
      ensures asked == old(asked) + if answer.status == Pending && subject == anyone then 1 else 0
      ensures handed == old(handed) + if fd == descriptor && fd >= 0 then 1 else 0
      ensures subject.key in cache ==> answer == cache[subject.key] && answer.status != Pending
      ensures subject.key !in cache && subject.key in old(inFlight) ==>
        answer.status == if |old(inFlight)[subject.key]| < options.maximumWaiters then Pending else Skipped
      ensures subject.key !in cache && subject.key !in old(inFlight) ==>
        answer.status == if fd < 0 then Unreadable else if |old(queue)| < options.capacity then Pending else Skipped
      ensures answer.status != Pending ==> queue == old(queue) && inFlight == old(inFlight)
      ensures answer.status == Pending ==>
        if subject.key in old(inFlight)
        then queue == old(queue) && inFlight == old(inFlight)[subject.key := old(inFlight)[subject.key] + [subject]]
        else queue == old(queue) + [Request(subject, fd)] && inFlight == old(inFlight)[subject.key := [subject]]
    {
      if subject.key in cache {
        Close(fd);
        return cache[subject.key];
      }
      if subject.key in inFlight {
        Close(fd);
        if |inFlight[subject.key]| >= options.maximumWaiters { return Hash(Skipped, []); }
        Join(subject);
        return Hash(Pending, []);
      }
      if fd < 0 { return Hash(Unreadable, []); }
      if |queue| >= options.capacity {
        Close(fd);
        return Hash(Skipped, []);
      }
      Enqueue(subject, fd);
      return Hash(Pending, []);
    }

    /** The worker's first section. */
    method Take()
      requires Valid() && running.None? && queue != []
      modifies this`queue, this`running
      ensures Valid() && running == Some(old(queue)[0]) && queue == old(queue)[1..]
    {
      assert [queue[0]] + queue[1..] == queue;
      running, queue := Some(queue[0]), queue[1..];
    }

    method Drain() returns (results: seq<Result>)
      requires Valid()
      modifies this`finished, this`delivered
      ensures Valid() && results == old(finished) && finished == [] && delivered == old(delivered) + results
    {
      results := finished;
      ResultsJoin(delivered, finished, anyone);
      delivered, finished := delivered + finished, [];
    }

    /** `remember`: a final answer enters the cache, the oldest ones leave it. */
    method Remember(key: Key, hash: Hash)
      requires CacheOk(cache, order, options.cacheEntries)
      modifies this`cache, this`order
      ensures CacheOk(cache, order, options.cacheEntries)
      ensures forall k :: k in cache ==>
                (k in old(cache) && cache[k] == old(cache)[k]) || (k == key && cache[k] == hash)
      ensures key !in old(cache) && options.cacheEntries > 0 ==> key in cache && cache[key] == hash
      ensures key in old(cache) ==> cache == old(cache) && order == old(order)
      ensures key !in old(cache) ==> order == Latest(old(order) + [key], options.cacheEntries)
    {
      if key in cache { return; }
      cache, order := cache[key := hash], order + [key];
      ghost var all, added := order, cache;
      while |order| > options.cacheEntries
        invariant (order == all && cache == added) || (order == all[1..] && cache == added - {all[0]})
        invariant order == all || |all| == options.cacheEntries + 1
        decreases |order|
      {
        cache, order := cache - {order[0]}, order[1..];
      }
      LatestStay(old(cache), old(order), key, hash, options.cacheEntries);
    }

    /** The outcome goes to everybody who waits for this key. */
    method Deliver(hash: Hash)
      requires Valid() && running.Some?
      modifies this`running, this`inFlight, this`finished, this`closed, this`work
      ensures Valid() && running.None?
      ensures var key := old(running).value.subject.key;
              key in old(inFlight) && inFlight == old(inFlight) - {key} &&
                  finished == old(finished) + Told(old(inFlight)[key], hash) && Work(key, hash) in work
    {
      var current := running.value;
      var key := current.subject.key;
      DeliverOk(options, anyone, descriptor, Now(), hash);
      var told := TellAll(finished, inFlight[key], hash);
      closed := closed + if current.fd == descriptor then 1 else 0;
      work := work + {Work(key, hash)};
      running, finished, inFlight := None, told, inFlight - {key};
    }

    /** The worker's second section. */
    method Finish(hash: Hash)
      requires Valid() && running.Some?
      modifies this`running, this`inFlight, this`cache, this`order, this`finished, this`closed, this`work
      ensures Valid() && running.None?
      ensures var key := old(running).value.subject.key;
              key in old(inFlight) && inFlight == old(inFlight) - {key} &&
                  finished == old(finished) + Told(old(inFlight)[key], hash)
      ensures hash.status != Computed && hash.status != TooLarge ==> cache == old(cache)
      ensures var key := old(running).value.subject.key;
              (hash.status == Computed || hash.status == TooLarge) && key !in old(cache) && options.cacheEntries > 0 ==>
                key in cache && cache[key] == hash
    {
      var key := running.value.subject.key;
      Deliver(hash);
      if hash.status == Computed || hash.status == TooLarge { CacheResult(key, hash); }
    }

    method CacheResult(key: Key, hash: Hash)
      requires Valid() && Work(key, hash) in work && (hash.status == Computed || hash.status == TooLarge) &&
               key !in inFlight
      modifies this`cache, this`order
      ensures Valid() && (key !in old(cache) && options.cacheEntries > 0 ==> key in cache && cache[key] == hash)
    {
      ghost var was := Now();
      Remember(key, hash);
      RememberOk(options, anyone, descriptor, was, cache, order, key, hash);
    }

    /**
     When no request is left, everybody who was told to wait has exactly one result, and every descriptor is closed.
     */
    lemma NobodyIsLost()
      requires Valid() && queue == [] && running.None?
      ensures inFlight == map[] && asked == Results(delivered, anyone) + Results(finished, anyone) && handed == closed
    {
      assert forall key :: key in inFlight ==> HasRequest([], key);
    }
  }

  ghost function Told(waiters: seq<Subject>, hash: Hash): seq<Result> {
    if waiters == [] then [] else [Result(waiters[0], hash)] + Told(waiters[1..], hash)
  }

  lemma {:induction false} StaysHonest(results: seq<Result>, work: set<Work>, key: Key, waiters: seq<Subject>,
                                       hash: Hash)
    requires Honest(results, work) && Work(key, hash) in work && forall i :: 0 <= i < |waiters| ==>
               waiters[i].key == key
    ensures Honest(results + Told(waiters, hash), work)
    decreases |waiters|
  {
    if waiters == [] {
      assert results + [] == results;
    } else {
      var more := results + [Result(waiters[0], hash)];
      StaysHonest(more, work, key, waiters[1..], hash);
      Associative(results, [Result(waiters[0], hash)], Told(waiters[1..], hash));
    }
  }

  method TellAll(before: seq<Result>, waiters: seq<Subject>, hash: Hash) returns (finished: seq<Result>)
    ensures finished == before + Told(waiters, hash)
  {
    finished := before;
    assert waiters[0..] == waiters;
    for i := 0 to |waiters|
      invariant finished + Told(waiters[i..], hash) == before + Told(waiters, hash)
    {
      assert waiters[i..][1..] == waiters[i + 1..];
      Associative(finished, [Result(waiters[i], hash)], Told(waiters[i + 1..], hash));
      finished := finished + [Result(waiters[i], hash)];
    }
  }

  lemma {:induction false} TellsAll(before: seq<Result>, waiters: seq<Subject>, hash: Hash, x: Subject)
    ensures Results(before + Told(waiters, hash), x) == Results(before, x) + Times(waiters, x)
    decreases |waiters|
  {
    if waiters == [] {
      assert before + [] == before;
    } else {
      var first := Result(waiters[0], hash);
      Associative(before, [first], Told(waiters[1..], hash));
      ResultsMore(before, first, x);
      TellsAll(before + [first], waiters[1..], hash, x);
    }
  }

  /** The running request is done, and the queue is what is left. */
  lemma FirstTold(first: Request, queue: seq<Request>, inFlight: InFlight, results: seq<Result>, options: Options,
                  x: Subject,
                  asked: int, work: set<Work>, hash: Hash)
    requires Accounted([first] + queue, inFlight, results, options, x, asked) && Honest(results, work)
    ensures var key := first.subject.key;
            && key in inFlight
            && Accounted(queue, inFlight - {key}, results + Told(inFlight[key], hash), options, x, asked)
            && Honest(results + Told(inFlight[key], hash), work + {Work(key, hash)})
  {
    assert ([first] + queue)[0] == first && ([first] + queue)[1..] == queue;
    AllTold([first] + queue, inFlight, results, options, x, asked, work, hash);
  }

  lemma FirstHolds(first: Request, queue: seq<Request>, fd: int)
    ensures Holders([first] + queue, fd) == Holders(queue, fd) + if first.fd == fd then 1 else 0
  {
    assert ([first] + queue)[0] == first && ([first] + queue)[1..] == queue;
  }

  /** What was honest stays so. */
  lemma MoreWork(results: seq<Result>, cache: map<Key, Hash>, work: set<Work>, w: Work)
    requires Honest(results, work) && HonestCache(cache, work)
    ensures Honest(results, work + {w}) && HonestCache(cache, work + {w})
  {
  }

  lemma AllTold(active: seq<Request>, inFlight: InFlight, results: seq<Result>, options: Options, x: Subject,
                asked: int, work: set<Work>, hash: Hash)
    requires Accounted(active, inFlight, results, options, x, asked) && active != [] && Honest(results, work)
    ensures var key := active[0].subject.key;
            && key in inFlight
            && Accounted(active[1..], inFlight - {key}, results + Told(inFlight[key], hash), options, x, asked)
            && Honest(results + Told(inFlight[key], hash), work + {Work(key, hash)})
  {
    var key := active[0].subject.key;
    OneRequestLess(active, inFlight, options, x);
    TellsAll(results, inFlight[key], hash, x);
    StaysHonest(results, work + {Work(key, hash)}, key, inFlight[key], hash);
  }

  lemma OldestLeaves(cache: map<Key, Hash>, order: seq<Key>)
    requires NoRepeat(order) && order != [] && forall key :: key in cache <==> key in order
    ensures NoRepeat(order[1..]) && forall key :: key in cache - {order[0]} <==> key in order[1..]
  {
    forall key | key in order && key != order[0]
      ensures key in order[1..]
    {
      var k :| 0 <= k < |order| && order[k] == key;
      assert order[1..][k - 1] == key;
    }
  }
}
