/**
 Which container each process belongs to, and the starts and stops that follow from it: the first process seen in a
 container is its start, the exit of the last one its stop. Everything that `seed` and `observe` do is a sequence of
 joins and leaves; the theorems are about all such sequences.
 */
module ContainerTracker {
  import opened Text

  datatype Tracked = Tracked(firstSeen: nat, startObserved: bool, members: set<string>, peak: nat)

  datatype Lifecycle =
    | Started(id: string, time: nat, process: string)
    | Stopped(id: string, time: nat, process: string, startObserved: bool, lifetime: nat, peak: nat)

  datatype Kind = Fork | Exec | Discovered | Exit | Other
  datatype Event = Event(kind: Kind, process: string, container: Option<string>, time: nat)

  type Containers = map<string, Tracked>
  type Members = map<string, string>

  datatype Limits = Limits(containers: nat, processes: nat)

  /** The two maps and the number of processes turned away. */
  datatype Book = Book(containers: Containers, memberOf: Members, untracked: nat)

  const NOTHING := Book(map[], map[], 0)

  datatype Move =
    | Join(process: string, id: string, observed: bool, time: nat)
    | Leave(process: string, time: nat)

  // ---- one move ------------------------------------------------------------------------------

  function Joined(t: Tracked, process: string): Tracked {
    var members := t.members + {process};
    t.(members := members, peak := Max(|members|, t.peak))
  }

  function Left(t: Tracked, process: string): Tracked { t.(members := t.members - {process}) }

  predicate Admits(limits: Limits, b: Book, id: string) {
    |b.memberOf| < limits.processes && (id in b.containers || |b.containers| < limits.containers)
  }

  function Found(b: Book, id: string, observed: bool, time: nat): Tracked {
    if id in b.containers then b.containers[id] else Tracked(time, observed, {}, 0)
  }

  function Moved(limits: Limits, b: Book, m: Move): Book {
    match m
    case Join(process, id, observed, time) =>
      if !Admits(limits, b, id) then b.(untracked := b.untracked + 1)
      else
        var t := Joined(Found(b, id, observed, time), process);
        b.(containers := b.containers[id := t], memberOf := b.memberOf[process := id])
    case Leave(process, _) =>
      if process !in b.memberOf then b
      else
        var id := b.memberOf[process];
        b.(containers := Parted(b.containers, id, process), memberOf := b.memberOf - {process})
  }

  /** The containers once a process has left one: it goes with its last member. */
  function Parted(containers: Containers, id: string, process: string): Containers {
    if id !in containers then containers
    else
      var t := Left(containers[id], process);
      if t.members == {} then containers - {id} else containers[id := t]
  }

  function StopOf(id: string, t: Tracked, process: string, time: nat): Lifecycle {
    var lifetime := if t.startObserved && time > t.firstSeen then time - t.firstSeen else 0;
    Stopped(id, time, process, t.startObserved, lifetime, t.peak)
  }

  /** What a move gives to tell. */
  function Says(limits: Limits, b: Book, m: Move): seq<Lifecycle> {
    match m
    case Join(process, id, observed, time) =>
      if Admits(limits, b, id) && id !in b.containers && observed then [Started(id, time, process)] else []
    case Leave(process, time) =>
      if process !in b.memberOf || b.memberOf[process] !in b.containers then []
      else
        var id := b.memberOf[process];
        if Left(b.containers[id], process).members == {} then [StopOf(id, b.containers[id], process, time)] else []
  }

  // ---- many moves ----------------------------------------------------------------------------

  function After(limits: Limits, b: Book, moves: seq<Move>): Book {
    if moves == [] then b else Moved(limits, After(limits, b, moves[..|moves| - 1]), moves[|moves| - 1])
  }

  /** Everything told, in order. */
  function Story(limits: Limits, b: Book, moves: seq<Move>): seq<Lifecycle> {
    if moves == [] then []
    else
      var n := |moves| - 1;
      Story(limits, b, moves[..n]) + Says(limits, After(limits, b, moves[..n]), moves[n])
  }

  lemma {:induction false} MoreMoves(limits: Limits, b: Book, moves: seq<Move>, more: seq<Move>)
    ensures After(limits, b, moves + more) == After(limits, After(limits, b, moves), more)
    decreases |more|
  {
    if more == [] {
      assert moves + more == moves;
    } else {
      var n := |more| - 1;
      MoreMoves(limits, b, moves, more[..n]);
      assert (moves + more)[..|moves + more| - 1] == moves + more[..n];
    }
  }

  lemma {:induction false} MoreStory(limits: Limits, b: Book, moves: seq<Move>, more: seq<Move>)
    ensures Story(limits, b, moves + more) == Story(limits, b, moves) + Story(limits, After(limits, b, moves), more)
    decreases |more|
  {
    var all, between := moves + more, After(limits, b, moves);
    if more == [] {
      assert all == moves;
    } else {
      var n := |more| - 1;
      assert all[..|all| - 1] == moves + more[..n];
      MoreStory(limits, b, moves, more[..n]);
      MoreMoves(limits, b, moves, more[..n]);
      StoryLast(limits, b, all);
      StoryLast(limits, between, more);
      var said := Says(limits, After(limits, between, more[..n]), more[n]);
      Associative(Story(limits, b, moves), Story(limits, between, more[..n]), said);
    }
  }

  lemma StoryLast(limits: Limits, b: Book, moves: seq<Move>)
    requires moves != []
    ensures var n := |moves| - 1;
            Story(limits, b, moves) == Story(limits, b, moves[..n]) +
                Says(limits, After(limits, b, moves[..n]), moves[n])
  {
  }

  lemma OneMove(limits: Limits, b: Book, m: Move)
    ensures After(limits, b, [m]) == Moved(limits, b, m) && Story(limits, b, [m]) == Says(limits, b, m)
  {
    assert [m][..0] == [];
    assert After(limits, b, []) == b;
  }

  /** A leave, if there is one, and the join after it. */
  lemma Two(limits: Limits, b: Book, between: Book, moves: seq<Move>)
    requires 1 <= |moves| <= 2 && (if |moves| == 1 then between == b else between == Moved(limits, b, moves[0]))
    ensures After(limits, b, moves) == Moved(limits, between, moves[|moves| - 1])
    ensures Story(limits, b, moves) ==
            (if |moves| == 1 then [] else Says(limits, b, moves[0])) + Says(limits, between, moves[|moves| - 1])
  {
    assert moves == moves[..|moves| - 1] + [moves[|moves| - 1]];
    if |moves| == 2 {
      assert moves[..1] == [moves[0]];
      OneMove(limits, b, moves[0]);
    }
  }

  // ---- what every move keeps -----------------------------------------------------------------

  predicate Belongs(containers: Containers, id: string, process: string) {
    id in containers && process in containers[id].members
  }

  /** Every process that is followed is in its container, no container is empty, and the bounds hold. */
  ghost predicate Sound(limits: Limits, b: Book) {
    && (forall p :: p in b.memberOf ==> Belongs(b.containers, b.memberOf[p], p))
    && (forall id :: id in b.containers ==> b.containers[id].members != {})
    && |b.containers| <= limits.containers && |b.memberOf| <= limits.processes
  }

  lemma OneMoreKey<T>(m: map<string, T>, key: string, value: T)
    ensures |m[key := value]| <= |m| + 1 && (key in m ==> |m[key := value]| == |m|)
  {
    assert m[key := value].Keys == m.Keys + {key};
    assert |m[key := value]| == |m.Keys + {key}| && |m| == |m.Keys|;
    assert key in m ==> m.Keys + {key} == m.Keys;
  }

  lemma OneKeyLess<T>(m: map<string, T>, key: string)
    ensures |m - {key}| <= |m|
  {
    assert (m - {key}).Keys == m.Keys - {key};
    SmallerSubset(m.Keys - {key}, m.Keys);
    assert |m - {key}| == |(m - {key}).Keys| && |m| == |m.Keys|;
  }

  /** The process joins, and every other is where it was. */
  lemma JoinBelongs(limits: Limits, b: Book, m: Move, id: string, p: string)
    requires m.Join? && Admits(limits, b, m.id)
    ensures Belongs(Moved(limits, b, m).containers, id, p) <==>
              Belongs(b.containers, id, p) || (id == m.id && p == m.process)
  {
  }

  lemma JoinHome(limits: Limits, b: Book, m: Move, p: string)
    requires m.Join? && Admits(limits, b, m.id) && (p in b.memberOf ==> Belongs(b.containers, b.memberOf[p], p))
    ensures var after := Moved(limits, b, m); p in after.memberOf ==> Belongs(after.containers, after.memberOf[p], p)
  {
    var after := Moved(limits, b, m);
    if p in after.memberOf { JoinBelongs(limits, b, m, after.memberOf[p], p); }
  }

  lemma JoinIsSound(limits: Limits, b: Book, m: Move)
    requires Sound(limits, b) && m.Join? && Admits(limits, b, m.id)
    ensures Sound(limits, Moved(limits, b, m))
  {
    var after := Moved(limits, b, m);
    OneMoreKey(b.containers, m.id, after.containers[m.id]);
    OneMoreKey(b.memberOf, m.process, m.id);
    forall p ensures p in after.memberOf ==> Belongs(after.containers, after.memberOf[p], p) {
      JoinHome(limits, b, m, p);
    }
  }

  lemma LeaveIsSound(limits: Limits, b: Book, m: Move)
    requires Sound(limits, b) && m.Leave? && m.process in b.memberOf
    ensures Sound(limits, Moved(limits, b, m))
  {
    var id, after := b.memberOf[m.process], Moved(limits, b, m);
    assert Belongs(b.containers, id, m.process);
    OneKeyLess(b.containers, id);
    OneKeyLess(b.memberOf, m.process);
    OneMoreKey(b.containers, id, Left(b.containers[id], m.process));
    forall p | p in after.memberOf
      ensures Belongs(after.containers, after.memberOf[p], p)
    {
      assert p != m.process && Belongs(b.containers, b.memberOf[p], p);
      if b.memberOf[p] == id { assert p in Left(b.containers[id], m.process).members; }
    }
  }

  lemma MoveIsSound(limits: Limits, b: Book, m: Move)
    requires Sound(limits, b)
    ensures Sound(limits, Moved(limits, b, m))
  {
    match m
    case Join(_, id, _, _) => if Admits(limits, b, id) { JoinIsSound(limits, b, m); }
    case Leave(process, _) => if process in b.memberOf { LeaveIsSound(limits, b, m); }
  }

  lemma {:induction false} AlwaysSound(limits: Limits, b: Book, moves: seq<Move>)
    requires Sound(limits, b)
    ensures Sound(limits, After(limits, b, moves))
  {
    if moves != [] {
      var n := |moves| - 1;
      AlwaysSound(limits, b, moves[..n]);
      MoveIsSound(limits, After(limits, b, moves[..n]), moves[n]);
    }
  }

  // ---- starts and stops ----------------------------------------------------------------------

  ghost predicate SaysStop(said: seq<Lifecycle>, id: string) { exists e :: e in said && e.Stopped? && e.id == id }

  ghost predicate SaysStart(said: seq<Lifecycle>, id: string) { exists e :: e in said && e.Started? && e.id == id }

  /**
   A stop of a container is told exactly when the move takes out its last member, which is exactly when the container is
   no longer tracked; a start exactly when it is tracked from now on and was seen to start. Nothing else is told.
   */
  lemma ToldExactly(limits: Limits, b: Book, m: Move, id: string)
    requires Sound(limits, b)
    ensures var after, said := Moved(limits, b, m), Says(limits, b, m);
            && (SaysStop(said, id) <==> id in b.containers && id !in after.containers)
            && (SaysStop(said, id) <==> m.Leave? && m.process in b.memberOf && b.memberOf[m.process] == id &&
                                        b.containers[id].members == {m.process})
            && (SaysStart(said, id) <==> m.Join? && m.observed && id !in b.containers && id in after.containers)
            && |said| <= 1
  {
    var after, said := Moved(limits, b, m), Says(limits, b, m);
    if m.Leave? && m.process in b.memberOf {
      var home := b.memberOf[m.process];
      assert Belongs(b.containers, home, m.process);
      assert Left(b.containers[home], m.process).members == {} <==> b.containers[home].members == {m.process};
    }
    if said != [] { assert said[0] in said; }
  }

  /** Whether the last word on a container is that it started. */
  ghost predicate Running(story: seq<Lifecycle>, id: string) {
    story != [] && var last := story[|story| - 1];
        if last.id == id then last.Started? else Running(story[..|story| - 1], id)
  }

  /** A start follows no other start; a stop follows a start exactly when the start was observed. */
  ghost predicate Sensible(story: seq<Lifecycle>) {
    story == [] ||
    (Sensible(story[..|story| - 1]) &&
     var before, last := story[..|story| - 1], story[|story| - 1];
     if last.Started? then !Running(before, last.id) else last.startObserved <==> Running(before, last.id))
  }

  lemma StoryMore(story: seq<Lifecycle>, e: Lifecycle)
    ensures Sensible(story + [e]) <==>
            Sensible(story) && if e.Started? then !Running(story, e.id) else e.startObserved <==> Running(story, e.id)
    ensures forall id {:trigger Running(story + [e], id)} ::
              Running(story + [e], id) <==> if e.id == id then e.Started? else Running(story, id)
  {
    assert (story + [e])[..|story|] == story;
  }

  /** The containers that the story leaves running are the tracked ones whose start was observed. */
  ghost predicate Told(story: seq<Lifecycle>, containers: Containers) {
    && Sensible(story)
    && forall id {:trigger Running(story, id)} :: Running(story, id) <==>
         id in containers && containers[id].startObserved
  }

  lemma StartIsTold(story: seq<Lifecycle>, containers: Containers, e: Lifecycle, t: Tracked)
    requires Told(story, containers) && e.Started? && e.id !in containers && t.startObserved
    ensures Told(story + [e], containers[e.id := t])
  {
    StoryMore(story, e);
  }

  lemma StopIsTold(story: seq<Lifecycle>, containers: Containers, e: Lifecycle)
    requires Told(story, containers)
    requires e.Stopped? && e.id in containers && e.startObserved == containers[e.id].startObserved
    ensures Told(story + [e], containers - {e.id})
  {
    StoryMore(story, e);
  }

  lemma NothingTold(story: seq<Lifecycle>, before: Containers, after: Containers)
    requires Told(story, before)
    requires forall id :: id in before && before[id].startObserved <==> id in after && after[id].startObserved
    ensures Told(story + [], after)
  {
    assert story + [] == story;
  }

  lemma MoveIsTold(limits: Limits, b: Book, m: Move, story: seq<Lifecycle>)
    requires Told(story, b.containers)
    ensures Told(story + Says(limits, b, m), Moved(limits, b, m).containers)
  {
    var said, after := Says(limits, b, m), Moved(limits, b, m).containers;
    if said == [] {
      NothingTold(story, b.containers, after);
    } else if m.Join? {
      StartIsTold(story, b.containers, said[0], after[m.id]);
    } else {
      StopIsTold(story, b.containers, said[0]);
    }
  }

  /** Over every sequence of moves, starts and stops of a container alternate, but for containers not seen to start. */
  lemma {:induction false} StoryIsSensible(limits: Limits, moves: seq<Move>)
    ensures Told(Story(limits, NOTHING, moves), After(limits, NOTHING, moves).containers)
  {
    if moves != [] {
      var n := |moves| - 1;
      StoryIsSensible(limits, moves[..n]);
      MoveIsTold(limits, After(limits, NOTHING, moves[..n]), moves[n], Story(limits, NOTHING, moves[..n]));
    }
  }

  // ---- peaks ---------------------------------------------------------------------------------

  /** The containers after the first `k` moves. */
  function At(limits: Limits, moves: seq<Move>, k: nat): Containers
    requires k <= |moves|
  {
    After(limits, NOTHING, moves[..k]).containers
  }

  /** The sizes a container has had, move by move, since it was last not tracked. */
  function Sizes(limits: Limits, moves: seq<Move>, k: nat, id: string): (sizes: seq<nat>)
    requires k <= |moves|
    ensures |sizes| <= k
  {
    if k == 0 || id !in At(limits, moves, k) then []
    else Sizes(limits, moves, k - 1, id) + [|At(limits, moves, k)[id].members|]
  }

  function Greatest(sizes: seq<nat>): nat {
    if sizes == [] then 0 else Max(Greatest(sizes[..|sizes| - 1]), sizes[|sizes| - 1])
  }

  lemma GreatestMore(sizes: seq<nat>, n: nat)
    ensures Greatest(sizes + [n]) == Max(Greatest(sizes), n)
  {
    assert (sizes + [n])[..|sizes|] == sizes;
  }

  lemma {:induction false} GreatestIs(sizes: seq<nat>)
    ensures forall i :: 0 <= i < |sizes| ==> sizes[i] <= Greatest(sizes)
    ensures sizes != [] ==> Greatest(sizes) in sizes
  {
    if sizes != [] {
      var n := |sizes| - 1;
      GreatestIs(sizes[..n]);
      assert sizes == sizes[..n] + [sizes[n]];
    }
  }

  lemma AtNext(limits: Limits, moves: seq<Move>, k: nat)
    requires k < |moves|
    ensures At(limits, moves, k + 1) == Moved(limits, After(limits, NOTHING, moves[..k]), moves[k]).containers
  {
    assert moves[..k + 1][..k] == moves[..k];
  }

  /** What a tracked container keeps: its beginning, and a peak that grows with its size. */
  ghost predicate Grows(was: Tracked, t: Tracked) {
    && t.firstSeen == was.firstSeen && t.startObserved == was.startObserved
    && (|was.members| <= was.peak ==> t.peak == Max(was.peak, |t.members|))
  }

  lemma JoinGrows(t: Tracked, process: string)
    ensures Grows(t, Joined(t, process))
  {
  }

  lemma LeaveGrows(t: Tracked, process: string)
    ensures Grows(t, Left(t, process))
  {
    SmallerSubset(t.members - {process}, t.members);
  }

  lemma StaysTheSame(t: Tracked)
    ensures Grows(t, t)
  {
  }

  lemma JoinPeakStep(limits: Limits, b: Book, m: Move, id: string)
    requires m.Join? && id in Moved(limits, b, m).containers
    ensures var t := Moved(limits, b, m).containers[id];
            if id in b.containers then Grows(b.containers[id], t)
            else m.id == id && t == Tracked(m.time, m.observed, {m.process}, 1)
  {
    if id in b.containers {
      StaysTheSame(b.containers[id]);
      JoinGrows(b.containers[id], m.process);
    } else {
      assert {} + {m.process} == {m.process};
    }
  }

  lemma LeavePeakStep(limits: Limits, b: Book, m: Move, id: string)
    requires m.Leave? && id in Moved(limits, b, m).containers
    ensures id in b.containers && Grows(b.containers[id], Moved(limits, b, m).containers[id])
  {
    StaysTheSame(b.containers[id]);
    LeaveGrows(b.containers[id], m.process);
  }

  /** One move: a new container has one member, and a tracked one grows. */
  lemma PeakStep(limits: Limits, b: Book, m: Move, id: string)
    requires id in Moved(limits, b, m).containers
    ensures var t := Moved(limits, b, m).containers[id];
            if id in b.containers then Grows(b.containers[id], t)
            else m.Join? && m.id == id && t == Tracked(m.time, m.observed, {m.process}, 1)
  {
    if m.Join? { JoinPeakStep(limits, b, m, id); } else { LeavePeakStep(limits, b, m, id); }
  }

  /**
   The peak of a tracked container is the greatest size it has had since it is tracked, and the move that made it
   tracked is its first sight.
   */
  ghost predicate PeakAt(limits: Limits, moves: seq<Move>, k: nat, id: string)
    requires k <= |moves| && id in At(limits, moves, k)
  {
    var sizes, t := Sizes(limits, moves, k, id), At(limits, moves, k)[id];
    && 0 < |sizes| <= k && sizes[|sizes| - 1] == |t.members| && t.peak == Greatest(sizes)
    && BegunBy(moves[k - |sizes|], id, t.firstSeen, t.startObserved)
  }

  predicate BegunBy(m: Move, id: string, firstSeen: nat, observed: bool) {
    m.Join? && m.id == id && m.time == firstSeen && m.observed == observed
  }

  /** That holds after every sequence of moves. */
  lemma {:induction false} PeakIsGreatest(limits: Limits, moves: seq<Move>, k: nat, id: string)
    requires k <= |moves| && id in At(limits, moves, k)
    ensures PeakAt(limits, moves, k, id)
    decreases k
  {
    assert moves[..0] == [];
    AtNext(limits, moves, k - 1);
    PeakStep(limits, After(limits, NOTHING, moves[..k - 1]), moves[k - 1], id);
    if id in At(limits, moves, k - 1) {
      PeakIsGreatest(limits, moves, k - 1, id);
      PeakGoesOn(limits, moves, k - 1, id);
    } else {
      PeakBegins(limits, moves, k - 1, id);
    }
  }

  lemma PeakBegins(limits: Limits, moves: seq<Move>, k: nat, id: string)
    requires k < |moves| && id !in At(limits, moves, k) && id in At(limits, moves, k + 1)
    requires moves[k].Join? && moves[k].id == id
    requires At(limits, moves, k + 1)[id] == Tracked(moves[k].time, moves[k].observed, {moves[k].process}, 1)
    ensures PeakAt(limits, moves, k + 1, id)
  {
    var sizes := Sizes(limits, moves, k + 1, id);
    assert Sizes(limits, moves, k, id) == [] && sizes == [1];
    GreatestMore([], 1);
    assert [] + [1] == sizes;
  }

  lemma PeakGoesOn(limits: Limits, moves: seq<Move>, k: nat, id: string)
    requires k < |moves| && id in At(limits, moves, k) && id in At(limits, moves, k + 1) && PeakAt(limits, moves, k, id)
    requires Grows(At(limits, moves, k)[id], At(limits, moves, k + 1)[id])
    ensures PeakAt(limits, moves, k + 1, id)
  {
    var sizes, n := Sizes(limits, moves, k, id), |At(limits, moves, k + 1)[id].members|;
    GreatestIs(sizes);
    GreatestMore(sizes, n);
    assert Sizes(limits, moves, k + 1, id) == sizes + [n];
  }

  /**
   So the stop that the last move of any sequence tells gives the greatest size and the time since the first sight.
   */
  lemma StopTellsPeak(limits: Limits, moves: seq<Move>, e: Lifecycle)
    requires moves != [] && e.Stopped?
    requires e in Says(limits, After(limits, NOTHING, moves[..|moves| - 1]), moves[|moves| - 1])
    ensures exists firstSeen :: StopIsTrue(limits, moves, e, firstSeen)
  {
    var n := |moves| - 1;
    var b := After(limits, NOTHING, moves[..n]);
    AlwaysSound(limits, NOTHING, moves[..n]);
    OneMember(limits, b, moves[n], e);
    PeakIsGreatest(limits, moves, n, e.id);
    StopOfPeak(limits, moves, e);
  }

  lemma StopOfPeak(limits: Limits, moves: seq<Move>, e: Lifecycle)
    requires moves != [] && e.Stopped? && e.id in At(limits, moves, |moves| - 1) &&
             PeakAt(limits, moves, |moves| - 1, e.id)
    requires var t := At(limits, moves, |moves| - 1)[e.id]; |t.members| == 1 && e == StopOf(e.id, t, e.process, e.time)
    ensures exists firstSeen :: StopIsTrue(limits, moves, e, firstSeen)
  {
    assert StopIsTrue(limits, moves, e, At(limits, moves, |moves| - 1)[e.id].firstSeen);
  }

  /** The last size before the stop was 1; the first sight was that long ago, if it was seen. */
  ghost predicate StopIsTrue(limits: Limits, moves: seq<Move>, e: Lifecycle, firstSeen: nat)
    requires moves != [] && e.Stopped?
  {
    var n := |moves| - 1;
    var sizes := Sizes(limits, moves, n, e.id);
    && 0 < |sizes| <= n && sizes[|sizes| - 1] == 1 && e.peak == Greatest(sizes)
    && BegunBy(moves[n - |sizes|], e.id, firstSeen, e.startObserved)
    && e.lifetime == if e.startObserved && e.time > firstSeen then e.time - firstSeen else 0
  }

  lemma OneMember(limits: Limits, b: Book, m: Move, e: Lifecycle)
    requires Sound(limits, b) && e.Stopped? && e in Says(limits, b, m)
    ensures e.id in b.containers && |b.containers[e.id].members| == 1
    ensures e == StopOf(e.id, b.containers[e.id], e.process, e.time)
  {
    assert Belongs(b.containers, e.id, m.process);
    assert b.containers[e.id].members == {m.process};
  }

  // ---- the two maps --------------------------------------------------------------------------

  /** Process to container and container to processes say the same. */
  ghost predicate Inverse(b: Book) {
    && (forall p :: p in b.memberOf ==> Belongs(b.containers, b.memberOf[p], p))
    && (forall id, p :: Belongs(b.containers, id, p) ==> p in b.memberOf && b.memberOf[p] == id)
  }

  /** Every process that is followed is in its container, and every process in a container is followed. */
  ghost predicate Followed(b: Book) {
    && (forall p :: p in b.memberOf ==> Belongs(b.containers, b.memberOf[p], p))
    && (forall id, p :: Belongs(b.containers, id, p) ==> p in b.memberOf)
  }

  predicate Free(b: Book, process: string, id: string) { process in b.memberOf ==> b.memberOf[process] == id }

  /** Joining keeps the two maps inverse exactly when the process belongs nowhere or already here, or is turned away. */
  lemma JoinKeepsInverse(limits: Limits, b: Book, m: Move)
    requires Inverse(b) && m.Join?
    ensures Inverse(Moved(limits, b, m)) <==> (Admits(limits, b, m.id) ==> Free(b, m.process, m.id))
  {
    if Admits(limits, b, m.id) {
      var after := Moved(limits, b, m);
      if Free(b, m.process, m.id) {
        forall p ensures p in after.memberOf ==> Belongs(after.containers, after.memberOf[p], p) {
          JoinHome(limits, b, m, p);
        }
        forall id, p | Belongs(after.containers, id, p) ensures p in after.memberOf && after.memberOf[p] == id {
          JoinBelongs(limits, b, m, id, p);
        }
      } else {
        JoinBelongs(limits, b, m, b.memberOf[m.process], m.process);
        assert Belongs(after.containers, b.memberOf[m.process], m.process);
      }
    }
  }

  lemma JoinKeepsFollowed(limits: Limits, b: Book, m: Move)
    requires Followed(b) && m.Join?
    ensures Followed(Moved(limits, b, m))
  {
    if Admits(limits, b, m.id) {
      var after := Moved(limits, b, m);
      forall p ensures p in after.memberOf ==> Belongs(after.containers, after.memberOf[p], p) {
        JoinHome(limits, b, m, p);
      }
      forall id, p | Belongs(after.containers, id, p) ensures p in after.memberOf {
        JoinBelongs(limits, b, m, id, p);
      }
    }
  }

  /** Once the maps are not inverse, no joining makes them so again. */
  lemma JoinNeverRestores(limits: Limits, b: Book, m: Move)
    requires Followed(b) && m.Join? && !Inverse(b)
    ensures !Inverse(Moved(limits, b, m))
  {
    if Admits(limits, b, m.id) {
      var id, p :| Belongs(b.containers, id, p) && b.memberOf[p] != id;
      JoinBelongs(limits, b, m, id, p);
      JoinBelongs(limits, b, m, b.memberOf[p], p);
      assert Belongs(Moved(limits, b, m).containers, b.memberOf[p], p);
    }
  }

  lemma LeaveKeepsInverse(limits: Limits, b: Book, m: Move)
    requires Inverse(b) && m.Leave?
    ensures Inverse(Moved(limits, b, m)) && m.process !in Moved(limits, b, m).memberOf
  {
    if m.process !in b.memberOf { return; }
    var home, after := b.memberOf[m.process], Moved(limits, b, m);
    assert Belongs(b.containers, home, m.process);
    forall p | p in after.memberOf
      ensures Belongs(after.containers, after.memberOf[p], p)
    {
      assert p != m.process && Belongs(b.containers, b.memberOf[p], p);
      if b.memberOf[p] == home { assert p in Left(b.containers[home], m.process).members; }
    }
    forall id, p | Belongs(after.containers, id, p)
      ensures p in after.memberOf && after.memberOf[p] == id
    {
      assert Belongs(b.containers, id, p);
    }
  }

  // ---- observing and seeding -----------------------------------------------------------------

  predicate Identified(e: Event) { e.process != "" && e.container.Some? && e.container.value != "" }

  predicate Places(e: Event) { e.kind in {Fork, Exec, Discovered} && Identified(e) }

  /** What one process event does: a process that moved leaves its container before it joins the other. */
  function MovesOf(b: Book, e: Event): seq<Move> {
    if e.process != "" && e.kind == Exit then [Leave(e.process, e.time)]
    else if !Places(e) || (e.process in b.memberOf && b.memberOf[e.process] == e.container.value) then []
    else
      var join := Join(e.process, e.container.value, e.kind != Discovered, e.time);
      if e.process in b.memberOf then [Leave(e.process, e.time), join] else [join]
  }

  function Observed(limits: Limits, b: Book, events: seq<Event>): seq<Move> {
    if events == [] then []
    else
      var n := |events| - 1;
      var before := Observed(limits, b, events[..n]);
      before + MovesOf(After(limits, b, before), events[n])
  }

  lemma ObservedNext(limits: Limits, b: Book, events: seq<Event>, k: nat)
    requires k < |events|
    ensures var before := Observed(limits, b, events[..k]);
            var here := After(limits, b, before);
            var done, all := MovesOf(here, events[k]), Observed(limits, b, events[..k + 1]);
            && all == before + done && After(limits, b, all) == After(limits, here, done)
            && Story(limits, b, all) == Story(limits, b, before) + Story(limits, here, done)
  {
    assert events[..k + 1][..k] == events[..k];
    var before := Observed(limits, b, events[..k]);
    MoreMoves(limits, b, before, MovesOf(After(limits, b, before), events[k]));
    MoreStory(limits, b, before, MovesOf(After(limits, b, before), events[k]));
  }

  lemma EventKeepsInverse(limits: Limits, b: Book, e: Event)
    requires Inverse(b)
    ensures Inverse(After(limits, b, MovesOf(b, e)))
  {
    var moves := MovesOf(b, e);
    if |moves| == 1 {
      OneMove(limits, b, moves[0]);
      if moves[0].Leave? { LeaveKeepsInverse(limits, b, moves[0]); } else { JoinKeepsInverse(limits, b, moves[0]); }
    } else if |moves| == 2 {
      var between := Moved(limits, b, moves[0]);
      LeaveKeepsInverse(limits, b, moves[0]);
      JoinKeepsInverse(limits, between, moves[1]);
      assert moves[..1] == [moves[0]];
      OneMove(limits, b, moves[0]);
    }
  }

  /** Whatever the events, both maps stay inverse. */
  lemma {:induction false} ObservingKeepsInverse(limits: Limits, b: Book, events: seq<Event>)
    requires Inverse(b)
    ensures Inverse(After(limits, b, Observed(limits, b, events)))
  {
    if events != [] {
      var n := |events| - 1;
      var before := Observed(limits, b, events[..n]);
      ObservingKeepsInverse(limits, b, events[..n]);
      EventKeepsInverse(limits, After(limits, b, before), events[n]);
      MoreMoves(limits, b, before, MovesOf(After(limits, b, before), events[n]));
    }
  }

  function JoinOf(e: Event): Move
    requires Identified(e)
  {
    Join(e.process, e.container.value, false, e.time)
  }

  function Seeded(live: seq<Event>): seq<Move> {
    if live == [] then [] else (if Identified(live[0]) then [JoinOf(live[0])] else []) + Seeded(live[1..])
  }

  lemma SeededNext(live: seq<Event>, k: nat, past: seq<Move>)
    requires k < |live|
    ensures past + Seeded(live[k..]) ==
            past + (if Identified(live[k]) then [JoinOf(live[k])] else []) + Seeded(live[k + 1..])
  {
    assert live[k..][0] == live[k] && live[k..][1..] == live[k + 1..];
    Associative(past, if Identified(live[k]) then [JoinOf(live[k])] else [], Seeded(live[k + 1..]));
  }

  /** No process that has an identity is listed in two containers, or in another than the one it is followed in. */
  ghost predicate Unclashing(live: seq<Event>, memberOf: Members) {
    && (forall i, j ::
          0 <= i < j < |live| && Identified(live[i]) && Identified(live[j]) && live[i].process == live[j].process
          ==> live[i].container == live[j].container)
    && (forall i :: 0 <= i < |live| && Identified(live[i]) && live[i].process in memberOf
          ==> live[i].container == Some(memberOf[live[i].process]))
  }

  /** One that is followed from now on decides for those after it. */
  lemma UnclashingStep(live: seq<Event>, b: Book)
    requires live != []
    ensures Unclashing(live, b.memberOf) ==> Unclashing(live[1..], b.memberOf)
    ensures !Identified(live[0]) ==> (Unclashing(live, b.memberOf) <==> Unclashing(live[1..], b.memberOf))
    ensures Identified(live[0]) ==>
              var process, id := live[0].process, live[0].container.value;
              if Free(b, process, id) then Unclashing(live, b.memberOf) <==>
                  Unclashing(live[1..], b.memberOf[process := id])
              else !Unclashing(live, b.memberOf)
  {
    assert forall i :: 0 <= i < |live| - 1 ==> live[1..][i] == live[i + 1];
    assert forall i :: 0 < i < |live| ==> live[i] == live[1..][i - 1];
  }

  /** What seeding one process does. */
  lemma SeedStep(limits: Limits, b: Book, live: seq<Event>)
    requires Followed(b) && live != [] && Identified(live[0])
    ensures var after := Moved(limits, b, JoinOf(live[0]));
            && Followed(after) && Says(limits, b, JoinOf(live[0])) == [] && after.untracked >= b.untracked
            && (Inverse(b) && Unclashing(live, b.memberOf) ==> Inverse(after) && Unclashing(live[1..], after.memberOf))
            && (after.untracked == b.untracked && Inverse(after) && Unclashing(live[1..], after.memberOf) ==>
                  Inverse(b) && Unclashing(live, b.memberOf))
  {
    UnclashingStep(live, b);
    JoinKeepsFollowed(limits, b, JoinOf(live[0]));
    if Inverse(b) {
      JoinKeepsInverse(limits, b, JoinOf(live[0]));
    } else {
      JoinNeverRestores(limits, b, JoinOf(live[0]));
    }
  }

  /**
   Seeding tells nothing. The maps stay inverse where no process is listed in two containers; and, unless a process was
   turned away, only there.
   */
  lemma {:induction false} SeedingKeepsInverse(limits: Limits, b: Book, live: seq<Event>)
    requires Followed(b)
    ensures var after := After(limits, b, Seeded(live));
            && Followed(after) && Story(limits, b, Seeded(live)) == [] && after.untracked >= b.untracked
            && (Inverse(b) && Unclashing(live, b.memberOf) ==> Inverse(after))
            && (after.untracked == b.untracked && Inverse(after) ==> Inverse(b) && Unclashing(live, b.memberOf))
    decreases |live|
  {
    if live != [] {
      if Identified(live[0]) {
        var m := JoinOf(live[0]);
        SeedStep(limits, b, live);
        OneMove(limits, b, m);
        MoreMoves(limits, b, [m], Seeded(live[1..]));
        MoreStory(limits, b, [m], Seeded(live[1..]));
        SeedingKeepsInverse(limits, Moved(limits, b, m), live[1..]);
      } else {
        UnclashingStep(live, b);
        SeedingKeepsInverse(limits, b, live[1..]);
        assert [] + Seeded(live[1..]) == Seeded(live[1..]);
      }
    }
  }

  // ---- the object ----------------------------------------------------------------------------

  class Tracker {
    const limits: Limits
    var containers: Containers
    var memberOf: Members
    var untracked: nat
    ghost var moves: seq<Move>  // everything done so far

    ghost function Contents(): Book
      reads this
    {
      Book(containers, memberOf, untracked)
    }

    /** The fields are what the moves so far make of an empty tracker. */
    ghost predicate Valid()
      reads this
    {
      Contents() == After(limits, NOTHING, moves)
    }

    /** From that book and those moves on, these moves were made and these changes told. */
    ghost predicate Done(was: Book, past: seq<Move>, done: seq<Move>, changes: seq<Lifecycle>)
      reads this
    {
      && Valid() && moves == past + done
      && Contents() == After(limits, was, done) && changes == Story(limits, was, done)
    }

    constructor (maximumContainers: nat, maximumProcesses: nat)
      ensures Valid() && limits == Limits(maximumContainers, maximumProcesses) && Contents() == NOTHING && moves == []
    {
      limits := Limits(maximumContainers, maximumProcesses);
      containers, memberOf, untracked, moves := map[], map[], 0, [];
    }

    ghost method Did(was: Book, m: Move)
      requires was == After(limits, NOTHING, moves) && Contents() == Moved(limits, was, m)
      modifies this`moves
      ensures Valid() && moves == old(moves) + [m]
    {
      MoreMoves(limits, NOTHING, moves, [m]);
      OneMove(limits, was, m);
      moves := moves + [m];
    }

    /** `join`: within the bounds the process is followed; past them it is only counted. */
    method JoinOne(process: string, id: string, observed: bool, time: nat) returns (changes: seq<Lifecycle>)
      requires Valid()
      modifies this
      ensures var m := Join(process, id, observed, time);
              && Valid() && moves == old(moves) + [m]
              && Contents() == Moved(limits, old(Contents()), m) && changes == Says(limits, old(Contents()), m)
    {
      ghost var was := Contents();
      changes := [];
      if |memberOf| >= limits.processes {
        untracked := untracked + 1;
      } else if id !in containers && |containers| >= limits.containers {
        untracked := untracked + 1;
      } else {
        var t := Tracked(time, observed, {}, 0);
        if id in containers {
          t := containers[id];
        } else if observed {
          changes := [Started(id, time, process)];
        }
        t := t.(members := t.members + {process});
        if |t.members| > t.peak { t := t.(peak := |t.members|); }
        assert t == Joined(Found(was, id, observed, time), process);
        containers := containers[id := t];
        memberOf := memberOf[process := id];
      }
      Did(was, Join(process, id, observed, time));
    }

    /** `leave`: the container stops exactly when its last process leaves. */
    method LeaveOne(process: string, time: nat) returns (changes: seq<Lifecycle>)
      requires Valid()
      modifies this
      ensures var m := Leave(process, time);
              && Valid() && moves == old(moves) + [m]
              && Contents() == Moved(limits, old(Contents()), m) && changes == Says(limits, old(Contents()), m)
    {
      ghost var was := Contents();
      changes := [];
      if process in memberOf {
        var id := memberOf[process];
        memberOf := memberOf - {process};
        if id in containers {
          var t := Left(containers[id], process);
          if t.members == {} {
            changes := [StopOf(id, t, process, time)];
            containers := containers - {id};
          } else {
            containers := containers[id := t];
          }
        }
      }
      Did(was, Leave(process, time));
    }

    /** One process event. */
    method ObserveOne(e: Event) returns (changes: seq<Lifecycle>)
      requires Valid()
      modifies this
      ensures Done(old(Contents()), old(moves), MovesOf(old(Contents()), e), changes)
    {
      ghost var was := Contents();
      changes := [];
      if e.process == "" {
        return;
      }
      if e.kind == Exit {
        OneMove(limits, was, Leave(e.process, e.time));
        changes := LeaveOne(e.process, e.time);
        return;
      }
      if e.kind == Other || e.container.None? || e.container.value == "" { return; }
      if e.process in memberOf {
        if memberOf[e.process] == e.container.value { return; }
        changes := LeaveOne(e.process, e.time);
      }
      ghost var between, left := Contents(), changes;
      var more := JoinOne(e.process, e.container.value, e.kind != Discovered, e.time);
      changes := changes + more;
      Two(limits, was, between, MovesOf(was, e));
    }

    /** `observe`: the events are done in turn, and everything they give to tell is returned. */
    method Observe(events: seq<Event>) returns (changes: seq<Lifecycle>)
      requires Valid()
      modifies this
      ensures Done(old(Contents()), old(moves), Observed(limits, old(Contents()), events), changes)
    {
      changes := [];
      ghost var was := Contents();
      for k := 0 to |events|
        invariant Done(was, old(moves), Observed(limits, was, events[..k]), changes)
      {
        ghost var before, here, said := Observed(limits, was, events[..k]), Contents(), changes;
        var more := ObserveOne(events[k]);
        changes := changes + more;
        ObservedNext(limits, was, events, k);
        Associative(old(moves), before, MovesOf(here, events[k]));
      }
      assert events[..|events|] == events;
    }

    /** `seed`: the processes join in turn, and nothing is told. */
    method Seed(live: seq<Event>)
      requires Valid()
      modifies this
      ensures Valid() && moves == old(moves) + Seeded(live) &&
              Contents() == After(limits, old(Contents()), Seeded(live))
    {
      ghost var was := Contents();
      ghost var all := old(moves) + Seeded(live);
      for k := 0 to |live|
        invariant Valid() && moves + Seeded(live[k..]) == all
      {
        var e := live[k];
        SeededNext(live, k, moves);
        if e.process != "" && e.container.Some? && e.container.value != "" {
          var _ := JoinOne(e.process, e.container.value, false, e.time);
        }
      }
      MoreMoves(limits, NOTHING, old(moves), Seeded(live));
    }

    /** In every state of every tracker: the bounds, the story told so far, and the peaks and beginnings. */
    lemma Always(id: string)
      requires Valid()
      ensures Sound(limits, Contents()) && Told(Story(limits, NOTHING, moves), containers)
      ensures id in containers ==>
                id in At(limits, moves, |moves|) && At(limits, moves, |moves|)[id] == containers[id] &&
                PeakAt(limits, moves, |moves|, id)
    {
      AlwaysSound(limits, NOTHING, moves);
      StoryIsSensible(limits, moves);
      assert moves[..|moves|] == moves;
      if id in containers { PeakIsGreatest(limits, moves, |moves|, id); }
    }
  }
}
