/** The signal behind the long poll: per-device generations and the waiters that a new job wakes.
    The waiters of a device are held in a set object that a waiter's timer keeps hold of, so the
    identity of that set is part of the state. */
module JobSignals {
  import opened Protocol

  type WaiterId = nat
  type SetId = nat

  /** A waiter whose promise is open and whose timer runs; `home` is the set its timer captured. */
  datatype Waiter = Waiter(device: DeviceId, afterGeneration: nat, home: SetId)

  datatype Signal = Signal(
    generations: map<DeviceId, nat>,
    waiters: map<DeviceId, SetId>,
    sets: map<SetId, set<WaiterId>>,
    pending: map<WaiterId, Waiter>)

  function Generation(s: Signal, device: DeviceId): nat {
    if device in s.generations then s.generations[device] else 0
  }

  /** Every open waiter is registered, in the very set its timer holds, and nothing was announced
      since the generation it waits past. */
  ghost predicate SignalOk(s: Signal) {
    && (forall id | id in s.pending ::
          var w := s.pending[id];
          && w.device in s.waiters && s.waiters[w.device] == w.home
          && w.home in s.sets && id in s.sets[w.home]
          && w.afterGeneration >= Generation(s, w.device))
    && (forall d | d in s.waiters ::
          && s.waiters[d] in s.sets && s.sets[s.waiters[d]] != {}
          && forall id | id in s.sets[s.waiters[d]] :: id in s.pending && s.pending[id].device == d)
  }

  // ----- the calls, as functions -----

  /** The waiters of a set that a generation passes. */
  function Passed(members: set<WaiterId>, pending: map<WaiterId, Waiter>, generation: nat): set<WaiterId> {
    set id | id in members && id in pending && pending[id].afterGeneration < generation
  }

  lemma PassedStep(
    members: set<WaiterId>, copied: set<WaiterId>, id: WaiterId, pending: map<WaiterId, Waiter>, generation: nat)
    requires copied <= members && id in copied && id in pending
    ensures id !in Passed(members - copied, pending, generation)
    ensures Passed(members - (copied - {id}), pending, generation)
            == Passed(members - copied, pending, generation)
               + if pending[id].afterGeneration < generation then {id} else {}
  {
  }

  function Woken(s: Signal, device: DeviceId): set<WaiterId>
    requires device in s.waiters ==> s.waiters[device] in s.sets
  {
    if device !in s.waiters then {}
    else Passed(s.sets[s.waiters[device]], s.pending, Generation(s, device) + 1)
  }

  function Notified(s: Signal, device: DeviceId): Signal
    requires device in s.waiters ==> s.waiters[device] in s.sets
  {
    var counted := s.(generations := s.generations[device := Generation(s, device) + 1]);
    if device !in s.waiters then counted
    else
      var home := s.waiters[device];
      var rest := s.sets[home] - Woken(s, device);
      counted.(
        sets := s.sets[home := rest],
        pending := s.pending - Woken(s, device),
        waiters := if rest == {} then s.waiters - {device} else s.waiters)
  }

  /** `id` and `home` name the waiter and, if one is needed, the set created for it. */
  function Waited(s: Signal, device: DeviceId, afterGeneration: nat, waitMs: int, id: WaiterId, home: SetId)
    : (Signal, bool)
  {
    if waitMs <= 0 || Generation(s, device) > afterGeneration then (s, true)
    else
      var kept := if device in s.waiters then s.waiters[device] else home;
      var members := if device in s.waiters && kept in s.sets then s.sets[kept] else {};
      (s.(sets := s.sets[kept := members + {id}],
          pending := s.pending[id := Waiter(device, afterGeneration, kept)],
          waiters := s.waiters[device := kept]), false)
  }

  /** A wait ends at once exactly when nothing is to be waited for, or something was announced since;
      otherwise the waiter, and nothing but its device's set, is added. */
  lemma WaitsEndAtOnceExactly(
    s: Signal, device: DeviceId, afterGeneration: nat, waitMs: int, id: WaiterId, home: SetId)
    ensures var (next, ended) := Waited(s, device, afterGeneration, waitMs, id, home);
      && (ended <==> waitMs <= 0 || (device in s.generations && s.generations[device] > afterGeneration))
      && (ended ==> next == s)
      && (!ended ==>
            && id in next.pending && next.pending[id].device == device
            && next.pending[id].afterGeneration == afterGeneration
            && device in next.waiters && next.waiters[device] == next.pending[id].home
            && next.pending[id].home in next.sets && id in next.sets[next.pending[id].home])
  {
  }

  function TimedOut(s: Signal, id: WaiterId): Signal
    requires id in s.pending && s.pending[id].home in s.sets
  {
    var w := s.pending[id];
    var rest := s.sets[w.home] - {id};
    s.(sets := s.sets[w.home := rest],
       pending := s.pending - {id},
       waiters := if rest == {} then s.waiters - {w.device} else s.waiters)
  }

  // ----- the object -----

  class JobSignal {
    var generations: map<DeviceId, nat>
    var waiters: map<DeviceId, SetId>
    var sets: map<SetId, set<WaiterId>>
    var pending: map<WaiterId, Waiter>

    ghost function Contents(): Signal
      reads this
    {
      Signal(generations, waiters, sets, pending)
    }

    ghost predicate Valid()
      reads this
    {
      SignalOk(Contents())
    }

    constructor ()
      ensures Valid() && Contents() == Signal(map[], map[], map[], map[])
    {
      generations, waiters, sets, pending := map[], map[], map[], map[];
    }

    method CurrentGeneration(device: DeviceId) returns (generation: nat)
      ensures generation == Generation(Contents(), device)
    {
      generation := if device in generations then generations[device] else 0;
    }

    /** Takes one waiter out. */
    method Resolve(home: SetId, id: WaiterId)
      requires home in sets
      modifies this`sets, this`pending
      ensures sets == old(sets)[home := old(sets)[home] - {id}]
      ensures pending == old(pending) - {id}
    {
      sets := sets[home := sets[home] - {id}];
      pending := pending - {id};
    }

    /** Takes every waiter that `generation` passes out of a set, going over a copy of it. */
    method ResolvePassed(home: SetId, generation: nat) returns (resolved: set<WaiterId>)
      requires home in sets && forall id | id in sets[home] :: id in pending
      modifies this`sets, this`pending
      ensures resolved == Passed(old(sets)[home], old(pending), generation)
      ensures sets == old(sets)[home := old(sets)[home] - resolved]
      ensures pending == old(pending) - resolved
    {
      ghost var members, open := sets[home], pending;
      resolved := {};
      var copied := sets[home];
      assert members - {} == members && sets[home := members] == sets;
      assert open - {} == open;
      while copied != {}
        invariant copied <= members
        invariant resolved == Passed(members - copied, open, generation)
        invariant sets == old(sets)[home := members - resolved]
        invariant pending == open - resolved
        decreases |copied|
      {
        var id :| id in copied;
        PassedStep(members, copied, id, open, generation);
        copied := copied - {id};
        if pending[id].afterGeneration < generation {
          assert members - resolved - {id} == members - (resolved + {id});
          Resolve(home, id);
          resolved := resolved + {id};
        }
      }
      assert members - copied == members;
    }

    /** Resolves every waiter that the new generation passes. */
    method Notify(device: DeviceId) returns (resolved: set<WaiterId>)
      requires Valid()
      modifies this
      ensures Valid()
      ensures Contents() == Notified(old(Contents()), device)
      ensures resolved == Woken(old(Contents()), device)
    {
      ghost var before := Contents();
      NotifyKeepsSignal(before, device);
      var generation := CurrentGeneration(device);
      generation := generation + 1;
      generations := generations[device := generation];
      if device !in waiters { return {}; }
      var home := waiters[device];
      resolved := ResolvePassed(home, generation);
      assert resolved == Woken(before, device);
      if sets[home] == {} { waiters := waiters - {device}; }
      assert Contents() == Notified(before, device);
    }

    /** Whether the wait is over at once; otherwise the waiter is registered. */
    method Wait(device: DeviceId, afterGeneration: nat, waitMs: int, id: WaiterId, home: SetId)
      returns (immediate: bool)
      requires Valid() && id !in pending && home !in sets
      modifies this
      ensures Valid()
      ensures (Contents(), immediate) == Waited(old(Contents()), device, afterGeneration, waitMs, id, home)
    {
      WaitKeepsSignal(Contents(), device, afterGeneration, waitMs, id, home);
      var generation := CurrentGeneration(device);
      if waitMs <= 0 || generation > afterGeneration { return true; }
      var kept := if device in waiters then waiters[device] else home;
      var members := if device in waiters then sets[kept] else {};
      sets := sets[kept := members + {id}];
      pending := pending[id := Waiter(device, afterGeneration, kept)];
      waiters := waiters[device := kept];
      // A generation read again here is the one just read: the timer is never cleared at once.
      immediate := false;
    }

    /** A waiter's timer: it acts on the set it captured, not on the one now registered. */
    method Timeout(id: WaiterId)
      requires Valid() && id in pending
      modifies this
      ensures Valid() && Contents() == TimedOut(old(Contents()), id)
    {
      TimeoutKeepsSignal(Contents(), id);
      var w := pending[id];
      sets := sets[w.home := sets[w.home] - {id}];
      if sets[w.home] == {} { waiters := waiters - {w.device}; }
      pending := pending - {id};
    }
  }

  // ----- what every call keeps -----

  lemma HomesAreApart(s: Signal, d: DeviceId, e: DeviceId)
    requires SignalOk(s) && d in s.waiters && e in s.waiters && s.waiters[d] == s.waiters[e]
    ensures d == e
  {
    var id :| id in s.sets[s.waiters[d]];
  }

  lemma NotifyKeepsSignal(s: Signal, device: DeviceId)
    requires SignalOk(s)
    ensures SignalOk(Notified(s, device))
  {
    var next := Notified(s, device);
    forall d | d in next.waiters && d != device
      ensures device in s.waiters ==> s.waiters[d] != s.waiters[device]
    {
      if device in s.waiters && s.waiters[d] == s.waiters[device] { HomesAreApart(s, d, device); }
    }
    forall id | id in next.pending
      ensures var w := next.pending[id];
        && w.device in next.waiters && next.waiters[w.device] == w.home
        && w.home in next.sets && id in next.sets[w.home]
        && w.afterGeneration >= Generation(next, w.device)
    {
      var w := s.pending[id];
      assert w.device in s.waiters && id in s.sets[s.waiters[w.device]];
      if device in s.waiters && w.home == s.waiters[device] {
        HomesAreApart(s, w.device, device);
        assert id in s.sets[w.home] - Woken(s, device);
      }
    }
  }

  lemma WaitKeepsSignal(s: Signal, device: DeviceId, afterGeneration: nat, waitMs: int, id: WaiterId, home: SetId)
    requires SignalOk(s) && id !in s.pending && home !in s.sets
    ensures SignalOk(Waited(s, device, afterGeneration, waitMs, id, home).0)
  {
    var next := Waited(s, device, afterGeneration, waitMs, id, home).0;
    if next != s {
      forall d | d in s.waiters && d != device
        ensures s.waiters[d] != next.waiters[device]
      {
        if device in s.waiters && s.waiters[d] == s.waiters[device] { HomesAreApart(s, d, device); }
      }
    }
  }

  lemma TimeoutKeepsSignal(s: Signal, id: WaiterId)
    requires SignalOk(s) && id in s.pending
    ensures SignalOk(TimedOut(s, id))
  {
    var w, next := s.pending[id], TimedOut(s, id);
    forall d | d in s.waiters && d != w.device
      ensures s.waiters[d] != w.home
    {
      if s.waiters[d] == w.home { HomesAreApart(s, d, w.device); }
    }
  }

  // ----- polls, jobs and every interleaving of them -----

  type PollId = nat

  /** A poll has read its generation and made its first claim, or waits, or is awake again with
      the jobs its second claim could see. */
  datatype Phase =
    | Claiming(generation: nat)
    | Waiting(generation: nat)
    | Awake(generation: nat, timedOut: bool)
    | Claimed(generation: nat, timedOut: bool, visible: set<JobId>)

  datatype Poll = Poll(device: DeviceId, phase: Phase)

  /** `announced` records, for a job whose notification has run, the generation it made. */
  datatype World = World(
    signal: Signal, polls: map<PollId, Poll>,
    enqueued: map<JobId, DeviceId>, announced: map<JobId, nat>)

  const QUIET := World(Signal(map[], map[], map[], map[]), map[], map[], map[])

  datatype Event =
    | StartPoll(poll: PollId, device: DeviceId)
    | CallWait(poll: PollId, waitMs: int, home: SetId)
    | FireTimer(poll: PollId)
    | EnqueueJob(job: JobId, device: DeviceId)
    | AnnounceJob(job: JobId)
    | ClaimAgain(poll: PollId)

  predicate Enabled(w: World, e: Event) {
    match e
    case StartPoll(poll, _) => poll !in w.polls
    case CallWait(poll, waitMs, home) =>
      poll in w.polls && w.polls[poll].phase.Claiming? && waitMs > 0 && home !in w.signal.sets
      && poll !in w.signal.pending
    case FireTimer(poll) => poll in w.signal.pending && poll in w.polls && w.signal.pending[poll].home in w.signal.sets
    case EnqueueJob(job, _) => job !in w.enqueued
    case AnnounceJob(job) =>
      job in w.enqueued && job !in w.announced
      && (w.enqueued[job] in w.signal.waiters ==> w.signal.waiters[w.enqueued[job]] in w.signal.sets)
    case ClaimAgain(poll) => poll in w.polls && w.polls[poll].phase.Awake?
  }

  function Wake(polls: map<PollId, Poll>, woken: set<WaiterId>): map<PollId, Poll> {
    map p | p in polls ::
      if p in woken then polls[p].(phase := Awake(polls[p].phase.generation, false)) else polls[p]
  }

  function Next(w: World, e: Event): World
    requires Enabled(w, e)
  {
    match e
    case StartPoll(poll, device) =>
      w.(polls := w.polls[poll := Poll(device, Claiming(Generation(w.signal, device)))])
    case CallWait(poll, waitMs, home) =>
      var p := w.polls[poll];
      var (signal, immediate) := Waited(w.signal, p.device, p.phase.generation, waitMs, poll, home);
      w.(signal := signal,
         polls := w.polls[poll := p.(phase :=
           if immediate then Awake(p.phase.generation, false) else Waiting(p.phase.generation))])
    case FireTimer(poll) =>
      w.(signal := TimedOut(w.signal, poll),
         polls := w.polls[poll := w.polls[poll].(phase := Awake(w.polls[poll].phase.generation, true))])
    case EnqueueJob(job, device) => w.(enqueued := w.enqueued[job := device])
    case AnnounceJob(job) =>
      var device := w.enqueued[job];
      w.(signal := Notified(w.signal, device),
         polls := Wake(w.polls, Woken(w.signal, device)),
         announced := w.announced[job := Generation(w.signal, device) + 1])
    case ClaimAgain(poll) =>
      var p := w.polls[poll];
      w.(polls := w.polls[poll := p.(phase :=
           Claimed(p.phase.generation, p.phase.timedOut, w.enqueued.Keys))])
  }

  ghost predicate IsInterleaving(run: seq<World>, events: seq<Event>) {
    && |run| == |events| + 1 && run[0] == QUIET
    && forall k | 0 <= k < |events| :: EventAt(run, events, k)
  }

  ghost predicate EventAt(run: seq<World>, events: seq<Event>, k: nat)
    requires |run| == |events| + 1 && k < |events|
  {
    Enabled(run[k], events[k]) && run[k + 1] == Next(run[k], events[k])
  }

  /** What a poll knows: its generation is not ahead of its device's; it is registered exactly
      while it waits; and unless its timer woke it, it is awake because of an announcement. */
  ghost predicate PollOk(w: World, p: PollId)
    requires p in w.polls
  {
    var poll := w.polls[p];
    && poll.phase.generation <= Generation(w.signal, poll.device)
    && (poll.phase.Waiting? <==> p in w.signal.pending)
    && (poll.phase.Waiting? ==>
          w.signal.pending[p].device == poll.device
          && w.signal.pending[p].afterGeneration == poll.phase.generation)
    && ((poll.phase.Awake? || poll.phase.Claimed?) && !poll.phase.timedOut ==>
          Generation(w.signal, poll.device) > poll.phase.generation)
  }

  ghost predicate WorldOk(w: World) {
    && SignalOk(w.signal)
    && (forall p | p in w.polls :: PollOk(w, p))
    && (forall p | p in w.signal.pending :: p in w.polls)
    && (forall j | j in w.announced :: j in w.enqueued && w.announced[j] <= Generation(w.signal, w.enqueued[j]))
  }

  lemma EventKeepsWorldOk(w: World, e: Event)
    requires WorldOk(w) && Enabled(w, e)
    ensures WorldOk(Next(w, e))
  {
    var next := Next(w, e);
    match e {
      case CallWait(poll, waitMs, home) =>
        WaitKeepsSignal(w.signal, w.polls[poll].device, w.polls[poll].phase.generation, waitMs, poll, home);
      case FireTimer(poll) =>
        TimeoutKeepsSignal(w.signal, poll);
      case AnnounceJob(job) =>
        AnnouncementKeepsWorldOk(w, job);
      case _ =>
    }
    forall p | p in next.polls ensures PollOk(next, p) {
      if p in w.polls { assert PollOk(w, p); }
    }
  }

  lemma AnnouncementKeepsWorldOk(w: World, job: JobId)
    requires WorldOk(w) && Enabled(w, AnnounceJob(job))
    ensures WorldOk(Next(w, AnnounceJob(job)))
  {
    var next, device := Next(w, AnnounceJob(job)), w.enqueued[job];
    NotifyKeepsSignal(w.signal, device);
    forall p | p in next.polls ensures PollOk(next, p) {
      assert PollOk(w, p);
    }
  }

  lemma {:induction false} InterleavingIsOk(run: seq<World>, events: seq<Event>, k: nat)
    requires IsInterleaving(run, events) && k < |run|
    ensures WorldOk(run[k])
  {
    if k > 0 {
      InterleavingIsOk(run, events, k - 1);
      assert EventAt(run, events, k - 1);
      EventKeepsWorldOk(run[k - 1], events[k - 1]);
    }
  }

  /** The side conditions about sets inside `Enabled` never block an event. */
  lemma EventsAreNeverBlocked(run: seq<World>, events: seq<Event>, k: nat)
    requires IsInterleaving(run, events) && k < |run|
    ensures forall p | p in run[k].signal.pending :: Enabled(run[k], FireTimer(p))
    ensures forall j | j in run[k].enqueued && j !in run[k].announced :: Enabled(run[k], AnnounceJob(j))
  {
    InterleavingIsOk(run, events, k);
  }

  // ----- no lost wake-up -----

  /** A poll is never left waiting for a job announced after it read its generation: not while
      the announcement runs, and not at any time after it. */
  lemma NoLostWakeUp(run: seq<World>, events: seq<Event>, k: nat, p: PollId, job: JobId)
    requires IsInterleaving(run, events) && k < |run|
    requires p in run[k].polls && job in run[k].announced && job in run[k].enqueued
    requires run[k].enqueued[job] == run[k].polls[p].device
    requires run[k].announced[job] > run[k].polls[p].phase.generation
    ensures !run[k].polls[p].phase.Waiting? && p !in run[k].signal.pending
  {
    InterleavingIsOk(run, events, k);
    assert PollOk(run[k], p);
  }

  /** A timer ends a wait only when nothing was announced to the device since the poll read its
      generation; otherwise the poll is awake because something was. */
  lemma TimersEndOnlyUneventfulWaits(run: seq<World>, events: seq<Event>, k: nat, p: PollId)
    requires IsInterleaving(run, events) && k < |events| && events[k] == FireTimer(p)
    ensures p in run[k].polls && run[k].polls[p].phase.Waiting?
    ensures Generation(run[k].signal, run[k].polls[p].device) == run[k].polls[p].phase.generation
  {
    InterleavingIsOk(run, events, k);
    assert EventAt(run, events, k);
    assert PollOk(run[k], p);
  }

  /** A poll that no timer woke was woken by an announcement made after it read its generation:
      that is the result here. That its second claim also sees every announced job is little more
      than that only enqueued jobs are announced. */
  lemma SecondClaimSeesAnnouncedJobs(run: seq<World>, events: seq<Event>, k: nat, p: PollId)
    requires IsInterleaving(run, events) && k < |events| && events[k] == ClaimAgain(p)
    ensures p in run[k + 1].polls && run[k + 1].polls[p].phase.Claimed?
    ensures forall j | j in run[k].announced :: j in run[k + 1].polls[p].phase.visible
    ensures !run[k + 1].polls[p].phase.timedOut ==>
      Generation(run[k + 1].signal, run[k + 1].polls[p].device) > run[k + 1].polls[p].phase.generation
  {
    InterleavingIsOk(run, events, k);
    assert EventAt(run, events, k);
    assert PollOk(run[k], p);
  }
}
