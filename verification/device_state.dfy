/**
 The device state of ipshark (`ipshark/core.c`) under concurrent calls. Each thread is outside, in the body
 of `set_namelist`, or in the body of `fetch_info`; `cas` and `set` are the only accesses, each atomic
 under the semaphore.
 */
module DeviceState {
  import opened Errno

  datatype DevState = Close | Open | NameSet | Run

  datatype Pc = Outside | SettingNames | Fetching

  datatype Device = Device(state: DevState, threads: seq<Pc>)

  datatype Call =
    | OpenDev
    | Release
    | SetNames(th: nat)
    | SetNamesDone(th: nat, ok: bool)
    | Fetch(th: nat)
    | FetchDone(th: nat)

  /** The variable itself. */
  class StateVar {
    var devState: DevState

    constructor ()
      ensures devState == Close
    {
      devState := Close;
    }

    method Cas(expected: DevState, to: DevState) returns (err: int)
      modifies this
      ensures (devState, err) == CasOn(old(devState), expected, to)
      ensures if old(devState) == expected then devState == to && err == 0 else devState == old(devState) && err == -22
    {
      err := 0;
      if devState == expected {
        devState := to;
      } else {
        err := EINVAL;
      }
    }

    method Set(to: DevState)
      modifies this
      ensures devState == to
    {
      devState := to;
    }
  }

  function CasOn(state: DevState, expected: DevState, to: DevState): (DevState, int) {
    if state == expected then (to, 0) else (state, EINVAL)
  }

  /** A call that can be made now. A file is released when no call on it is left. */
  ghost predicate May(d: Device, c: Call) {
    match c
    case OpenDev => true
    case Release => forall i :: 0 <= i < |d.threads| ==> d.threads[i].Outside?
    case SetNames(th) => th < |d.threads| && d.threads[th].Outside?
    case SetNamesDone(th, _) => th < |d.threads| && d.threads[th].SettingNames?
    case Fetch(th) => th < |d.threads| && d.threads[th].Outside?
    case FetchDone(th) => th < |d.threads| && d.threads[th].Fetching?
  }

  /** `cas` on the state, and into the body on success. */
  function Enter(d: Device, th: nat, expected: DevState, to: DevState, pc: Pc): Device
    requires th < |d.threads|
  {
    var r := CasOn(d.state, expected, to);
    Device(r.0, if r.1 == 0 then d.threads[th := pc] else d.threads)
  }

  function Do(d: Device, c: Call): (r: Device)
    requires May(d, c)
    ensures |r.threads| == |d.threads|
  {
    match c
    case OpenDev => d.(state := CasOn(d.state, Close, Open).0)
    case Release => d.(state := Close)
    case SetNames(th) => Enter(d, th, Open, NameSet, SettingNames)
    case SetNamesDone(th, ok) => Device(if ok then d.state else Open, d.threads[th := Outside])
    case Fetch(th) => Enter(d, th, NameSet, Run, Fetching)
    case FetchDone(th) => Device(NameSet, d.threads[th := Outside])
  }

  function Inside(d: Device): set<nat> {
    set i | 0 <= i < |d.threads| && d.threads[i].Fetching?
  }

  /** The state is RUN exactly when one thread is inside `fetch_info`, and more never are. */
  ghost predicate Exclusive(d: Device) {
    |Inside(d)| <= 1 && (d.state.Run? <==> |Inside(d)| == 1)
  }

  /** A `set_namelist` that fails while a fetch is inside. */
  ghost predicate Disturbs(d: Device, c: Call) {
    c.SetNamesDone? && !c.ok && Inside(d) != {}
  }

  ghost predicate Made(d: Device, cs: seq<Call>)
    decreases |cs|
  {
    cs == [] || (May(d, cs[0]) && Made(Do(d, cs[0]), cs[1..]))
  }

  /** Every state of the run is exclusive. */
  ghost predicate AlwaysExclusive(d: Device, cs: seq<Call>)
    requires Made(d, cs)
    decreases |cs|
  {
    Exclusive(d) && (cs == [] || AlwaysExclusive(Do(d, cs[0]), cs[1..]))
  }

  ghost predicate NeverDisturbed(d: Device, cs: seq<Call>)
    requires Made(d, cs)
    decreases |cs|
  {
    cs == [] || (!Disturbs(d, cs[0]) && NeverDisturbed(Do(d, cs[0]), cs[1..]))
  }

  lemma SameInside(d: Device, c: Call)
    requires May(d, c) && !c.Fetch? && !c.FetchDone?
    ensures Inside(Do(d, c)) == Inside(d)
  {
  }

  lemma FetchInside(d: Device, th: nat)
    requires May(d, Fetch(th))
    ensures th !in Inside(d)
    ensures Inside(Do(d, Fetch(th))) == if d.state.NameSet? then Inside(d) + {th} else Inside(d)
  {
  }

  lemma FetchDoneInside(d: Device, th: nat)
    requires May(d, FetchDone(th))
    ensures th in Inside(d) && Inside(Do(d, FetchDone(th))) == Inside(d) - {th}
  {
  }

  /** One call keeps exclusion unless it disturbs, and a call that disturbs breaks it at once. */
  lemma StepExclusiveIff(d: Device, c: Call)
    requires Exclusive(d) && May(d, c)
    ensures Exclusive(Do(d, c)) <==> !Disturbs(d, c)
  {
    match c {
      case Fetch(th) => FetchInside(d, th);
      case FetchDone(th) => FetchDoneInside(d, th);
      case Release =>
        SameInside(d, c);
        assert Inside(d) == {};
      case _ => SameInside(d, c);
    }
    assert |Inside(d)| == 0 <==> Inside(d) == {};
  }

  /** Over every interleaving of calls: exclusion holds throughout exactly when no `set_namelist` fails while
      a fetch is inside. */
  lemma {:induction false} ExclusiveIffUndisturbed(d: Device, cs: seq<Call>)
    requires Exclusive(d) && Made(d, cs)
    ensures AlwaysExclusive(d, cs) <==> NeverDisturbed(d, cs)
    decreases |cs|
  {
    if cs != [] {
      StepExclusiveIff(d, cs[0]);
      if Exclusive(Do(d, cs[0])) {
        ExclusiveIffUndisturbed(Do(d, cs[0]), cs[1..]);
      } else {
        NotFromHere(Do(d, cs[0]), cs[1..]);
      }
    }
  }

  lemma NotFromHere(d: Device, cs: seq<Call>)
    requires Made(d, cs) && !Exclusive(d)
    ensures !AlwaysExclusive(d, cs)
  {
  }

  function Fresh(n: nat): Device { Device(Close, seq(n, _ => Outside)) }

  /** The start is exclusive, so the theorem covers every run of every number of threads. */
  lemma FromTheStart(n: nat, cs: seq<Call>)
    requires Made(Fresh(n), cs)
    ensures AlwaysExclusive(Fresh(n), cs) <==> NeverDisturbed(Fresh(n), cs)
  {
    assert Inside(Fresh(n)) == {};
    ExclusiveIffUndisturbed(Fresh(n), cs);
  }

  /** A run that ends with two threads in `fetch_info`, sharing its static array: the name list is being set
      while thread 1 fetches, fails, is set again, and thread 2 gets in. */
  lemma TwoFetchersPossible() returns (d: Device)
    ensures exists cs :: Made(Fresh(3), cs) && !NeverDisturbed(Fresh(3), cs)
    ensures d.threads == [SettingNames, Fetching, Fetching] && d.state == Run
    ensures d == Do(Do(Do(Do(Do(Do(Fresh(3), OpenDev), SetNames(0)), Fetch(1)), SetNamesDone(0, false)),
                       SetNames(0)), Fetch(2))
  {
    var d0 := Fresh(3);
    var d1 := Do(d0, OpenDev);
    var d2 := Do(d1, SetNames(0));
    var d3 := Do(d2, Fetch(1));
    var d4 := Do(d3, SetNamesDone(0, false));
    var d5 := Do(d4, SetNames(0));
    d := Do(d5, Fetch(2));
    assert 1 in Inside(d3);
    var cs := [OpenDev, SetNames(0), Fetch(1), SetNamesDone(0, false)];
    assert cs[1..] == [SetNames(0), Fetch(1), SetNamesDone(0, false)];
    assert cs[1..][1..] == [Fetch(1), SetNamesDone(0, false)];
    assert cs[1..][1..][1..] == [SetNamesDone(0, false)];
    assert Made(d4, cs[1..][1..][1..][1..]);
    assert Made(d3, cs[1..][1..][1..]) && !NeverDisturbed(d3, cs[1..][1..][1..]);
    assert Made(d2, cs[1..][1..]) && !NeverDisturbed(d2, cs[1..][1..]);
    assert Made(d1, cs[1..]) && !NeverDisturbed(d1, cs[1..]);
    assert Made(d0, cs) && !NeverDisturbed(d0, cs);
  }

  // ----- Which calls are accepted

  /** What the caller of a call gets back when it begins. */
  function Answer(d: Device, c: Call): int {
    match c
    case OpenDev => CasOn(d.state, Close, Open).1
    case SetNames(_) => CasOn(d.state, Open, NameSet).1
    case Fetch(_) => CasOn(d.state, NameSet, Run).1
    case _ => 0
  }

  /** What the user of the device can tell from the calls made: closed, open without names, or with names set.
      A fetch does not change it. */
  datatype Phase = Closed | Opened | Named

  function PhaseOn(phase: Phase, c: Call): Phase {
    match c
    case OpenDev => if phase.Closed? then Opened else phase
    case Release => Closed
    case SetNames(_) => if phase.Opened? then Named else phase
    case SetNamesDone(_, ok) => if ok then phase else Opened
    case _ => phase
  }

  function PhaseAfter(phase: Phase, cs: seq<Call>): Phase
    decreases |cs|
  {
    if cs == [] then phase else PhaseAfter(PhaseOn(phase, cs[0]), cs[1..])
  }

  ghost function After(d: Device, cs: seq<Call>): (r: Device)
    requires Made(d, cs)
    ensures |r.threads| == |d.threads|
    decreases |cs|
  {
    if cs == [] then d else After(Do(d, cs[0]), cs[1..])
  }

  ghost predicate AllOutside(d: Device) {
    forall i :: 0 <= i < |d.threads| ==> d.threads[i].Outside?
  }

  ghost predicate OneSetting(d: Device) {
    forall i, j :: 0 <= i < j < |d.threads| && d.threads[i].SettingNames? ==> !d.threads[j].SettingNames?
  }

  /** The state of the device in each phase. */
  ghost predicate InPhase(d: Device, phase: Phase) {
    && |Inside(d)| <= 1 && OneSetting(d) && (!phase.Named? ==> AllOutside(d))
    && d.state == match phase
                  case Closed => Close
                  case Opened => Open
                  case Named => if Inside(d) == {} then NameSet else Run
  }

  /** The caller of a call moves, or stays if it is refused; no other thread moves. */
  lemma OnlyTheCallerMoves(d: Device, c: Call, i: nat)
    requires May(d, c) && i < |d.threads|
    ensures Do(d, c).threads[i] ==
      match c
      case SetNames(th) => if i == th && Answer(d, c) == 0 then SettingNames else d.threads[i]
      case Fetch(th) => if i == th && Answer(d, c) == 0 then Fetching else d.threads[i]
      case SetNamesDone(th, _) => if i == th then Outside else d.threads[i]
      case FetchDone(th) => if i == th then Outside else d.threads[i]
      case _ => d.threads[i]
  {
  }

  lemma FetchPhase(d: Device, phase: Phase, th: nat)
    requires InPhase(d, phase) && May(d, Fetch(th))
    ensures InPhase(Do(d, Fetch(th)), phase)
  {
    FetchInside(d, th);
    assert d.state.NameSet? ==> Inside(Do(d, Fetch(th))) == {th};
  }

  lemma FetchDonePhase(d: Device, phase: Phase, th: nat)
    requires InPhase(d, phase) && May(d, FetchDone(th))
    ensures InPhase(Do(d, FetchDone(th)), phase)
  {
    FetchDoneInside(d, th);
    OneInside(Inside(d), th);
  }

  lemma SetNamesDonePhase(d: Device, phase: Phase, th: nat, ok: bool)
    requires InPhase(d, phase) && May(d, SetNamesDone(th, ok)) && (ok || Inside(d) == {})
    ensures InPhase(Do(d, SetNamesDone(th, ok)), PhaseOn(phase, SetNamesDone(th, ok)))
  {
    SameInside(d, SetNamesDone(th, ok));
    if !ok {
      FailedAlone(d, phase, th);
    }
  }

  lemma StepPhase(d: Device, phase: Phase, c: Call)
    requires InPhase(d, phase) && May(d, c) && !Disturbs(d, c)
    ensures InPhase(Do(d, c), PhaseOn(phase, c))
  {
    match c {
      case Fetch(th) => FetchPhase(d, phase, th);
      case FetchDone(th) => FetchDonePhase(d, phase, th);
      case SetNamesDone(th, ok) => SetNamesDonePhase(d, phase, th, ok);
      case _ => SameInside(d, c);
    }
  }

  /** A `set_namelist` that fails with no fetch inside leaves nobody inside anything. */
  lemma FailedAlone(d: Device, phase: Phase, th: nat)
    requires InPhase(d, phase) && May(d, SetNamesDone(th, false)) && Inside(d) == {}
    ensures AllOutside(Do(d, SetNamesDone(th, false)))
  {
    forall i | 0 <= i < |d.threads| && i != th ensures d.threads[i].Outside? {
      assert i !in Inside(d);
      assert i < th ==> !d.threads[i].SettingNames?;
      assert th < i ==> !d.threads[i].SettingNames?;
    }
  }

  lemma OneInside(s: set<nat>, x: nat)
    requires |s| <= 1 && x in s
    ensures s - {x} == {}
  {
    assert |s - {x}| == |s| - 1;
  }

  lemma {:induction false} RunPhase(d: Device, phase: Phase, cs: seq<Call>)
    requires InPhase(d, phase) && Made(d, cs) && NeverDisturbed(d, cs)
    ensures InPhase(After(d, cs), PhaseAfter(phase, cs))
    decreases |cs|
  {
    if cs != [] {
      StepPhase(d, phase, cs[0]);
      RunPhase(Do(d, cs[0]), PhaseOn(phase, cs[0]), cs[1..]);
    }
  }

  /** In every undisturbed run from the closed device the phase decides every answer: only a closed device is
      opened, names are set on an open one only, and a fetch enters exactly if names are set and no other is
      inside. */
  lemma PhaseDecides(n: nat, cs: seq<Call>, th: nat)
    requires Made(Fresh(n), cs) && NeverDisturbed(Fresh(n), cs)
    ensures var d, phase := After(Fresh(n), cs), PhaseAfter(Closed, cs);
      && InPhase(d, phase)
      && Answer(d, OpenDev) == (if phase.Closed? then 0 else -22)
      && Answer(d, SetNames(th)) == (if phase.Opened? then 0 else -22)
      && Answer(d, Fetch(th)) == (if phase.Named? && Inside(d) == {} then 0 else -22)
  {
    assert Inside(Fresh(n)) == {};
    RunPhase(Fresh(n), Closed, cs);
  }

  /** Names are set and nobody is setting them. */
  ghost predicate Settled(d: Device) {
    InPhase(d, Named) && forall i :: 0 <= i < |d.threads| ==> !d.threads[i].SettingNames?
  }

  lemma StaysSettled(d: Device, c: Call)
    requires Settled(d) && May(d, c) && !c.Release?
    ensures Settled(Do(d, c))
  {
    StepPhase(d, Named, c);
  }

  lemma {:induction false} RunSettled(d: Device, cs: seq<Call>)
    requires Settled(d) && Made(d, cs) && forall i :: 0 <= i < |cs| ==> !cs[i].Release?
    ensures Settled(After(d, cs))
    decreases |cs|
  {
    if cs != [] {
      StaysSettled(d, cs[0]);
      RunSettled(Do(d, cs[0]), cs[1..]);
    }
  }

  /** From the end of a successful `set_namelist` up to a release, whatever is called in between, a fetch enters
      if and only if no thread is inside. */
  lemma FetchEntersIff(n: nat, before: seq<Call>, setter: nat, during: seq<Call>, th: nat)
    requires Made(Fresh(n), before) && NeverDisturbed(Fresh(n), before)
    requires May(After(Fresh(n), before), SetNamesDone(setter, true))
    requires Made(Do(After(Fresh(n), before), SetNamesDone(setter, true)), during)
    requires forall i :: 0 <= i < |during| ==> !during[i].Release?
    requires May(After(Do(After(Fresh(n), before), SetNamesDone(setter, true)), during), Fetch(th))
    ensures var d := After(Do(After(Fresh(n), before), SetNamesDone(setter, true)), during);
      Do(d, Fetch(th)).threads[th].Fetching? <==> Inside(d) == {}
  {
    var d := After(Fresh(n), before);
    PhaseDecides(n, before, th);
    StepPhase(d, PhaseAfter(Closed, before), SetNamesDone(setter, true));
    RunSettled(Do(d, SetNamesDone(setter, true)), during);
  }

  /** After a release every call but an open is refused and changes nothing, and an open is accepted. */
  lemma {:induction false} OnlyAnOpenAfterRelease(d: Device, cs: seq<Call>, th: nat)
    requires May(d, Release) && Made(Do(d, Release), cs) && forall i :: 0 <= i < |cs| ==> !cs[i].OpenDev?
    ensures var e := After(Do(d, Release), cs);
      && e == Do(d, Release) && AllOutside(e)
      && Answer(e, OpenDev) == 0 && Answer(e, SetNames(th)) == Answer(e, Fetch(th)) == -22
    decreases |cs|
  {
    if cs != [] {
      assert Do(Do(d, Release), cs[0]) == Do(d, Release);
      OnlyAnOpenAfterRelease(d, cs[1..], th);
    }
  }
}
