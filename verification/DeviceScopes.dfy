/**
 The context managers `device` and `StreamContext`, and programs built from them. The native
 state is the current device and the current stream of every device; device -1 means that no
 device is available. Whether `_supa_setStream` also switches the device is left open.
 */
module DeviceScopes {
  import opened Wrappers

  datatype Stream = Stream(id: int, device: int)

  datatype State = State(device: int, streams: map<int, Stream>)

  /** Device indices are not negative; every device has a current stream of its own; a device is current, or none. */
  ghost predicate Valid(s: State) {
    && (s.device == -1 || s.device in s.streams)
    && forall d :: d in s.streams ==> d >= 0 && s.streams[d].device == d
  }

  /** `_supa_setStream` */
  function SetStream(s: State, st: Stream, switching: bool): State {
    State(if switching then st.device else s.device, s.streams[st.device := st])
  }

  // ---------------------------------------------------------------- programs

  /**
   What the calls of `_lazy_init` on entry to a scope do: the first is made by `_supa_getDevice`
   or by `current_stream()`, the last ends `device.__enter__`.
   */
  datatype Init = Returns | FirstRaises | LastRaises

  /** Programs over scopes; SetDevice and UseStream are the unscoped calls `set_device` and `set_stream`. */
  datatype Program =
    | Work
    | Raise
    | Sequence(first: Program, second: Program)
    | WithDevice(idx: int, init: Init, body: Program)
    | WithStream(stream: Option<Stream>, init: Init, body: Program)
    | SetDevice(idx: int)
    | UseStream(st: Stream)

  predicate Scoped(p: Program) {
    match p
    case Work => true
    case Raise => true
    case Sequence(a, b) => Scoped(a) && Scoped(b)
    case WithDevice(_, _, body) => Scoped(body)
    case WithStream(_, _, body) => Scoped(body)
    case SetDevice(_) => false
    case UseStream(_) => false
  }

  datatype Outcome = Outcome(state: State, raised: bool)

  /** device.__enter__ as a value: the new state and `prev_idx`; an unknown device makes the native call fail. */
  function EnterDevice(s: State, idx: int, init: Init): (Outcome, int) {
    if idx == -1 then (Outcome(s, false), -1)
    else if init.FirstRaises? then (Outcome(s, true), -1)
    else if s.device == idx then (Outcome(s, init.LastRaises?), s.device)
    else if idx in s.streams then (Outcome(s.(device := idx), init.LastRaises?), s.device)
    else (Outcome(s, true), s.device)
  }

  /** device.__exit__ */
  function ExitDevice(s: State, idx: int, prev: int): State {
    if prev != idx then s.(device := prev) else s
  }

  /** What a StreamContext remembers. */
  datatype Saved = Saved(src: Option<Stream>, dst: Option<Stream>)

  /** StreamContext.__enter__; for a stream of another device it opens a device scope in between. */
  function EnterStream(s: State, stream: Option<Stream>, idx: int, init: Init, switching: bool): (Outcome, Saved)
    requires s.device == -1 || s.device in s.streams
  {
    if stream.None? || idx == -1 || s.device == -1 then (Outcome(s, false), Saved(None, None))
    else if init.FirstRaises? then (Outcome(s, true), Saved(None, None)) else
      var st, src := stream.value, s.streams[s.device];
      if src.device == st.device then (Outcome(SetStream(s, st, switching), false), Saved(Some(src), None)) else
        var entered := EnterDevice(s, st.device, init).0;
        if entered.raised then (entered, Saved(Some(src), None))
        else if st.device !in s.streams then (Outcome(s, true), Saved(Some(src), None))
        else (Outcome(SetStream(s, st, switching), false), Saved(Some(src), Some(s.streams[st.device])))
  }

  /** StreamContext.__exit__ */
  function ExitStream(s: State, stream: Option<Stream>, idx: int, saved: Saved, switching: bool): State {
    if stream.None? || idx == -1 || saved.src.None? then s else
      var s1 := if saved.src.value.device != stream.value.device && saved.dst.Some?
                then SetStream(s, saved.dst.value, switching) else s;
      SetStream(s1, saved.src.value, switching)
  }

  /** `__exit__` runs also when the body raises, but not when `__enter__` does. */
  function Run(p: Program, s: State, switching: bool): Outcome
    requires Valid(s)
    ensures Valid(Run(p, s, switching).state)
    ensures Run(p, s, switching).state.streams.Keys == s.streams.Keys
  {
    match p
    case Work => Outcome(s, false)
    case Raise => Outcome(s, true)
    case Sequence(a, b) =>
      var r := Run(a, s, switching);
      if r.raised then r else Run(b, r.state, switching)
    case WithDevice(idx, init, body) =>
      var (entered, prev) := EnterDevice(s, idx, init);
      if entered.raised then entered else
        var r := Run(body, entered.state, switching);
        Outcome(ExitDevice(r.state, idx, prev), r.raised)
    case WithStream(stream, init, body) =>
      var (entered, saved) := EnterStream(s, stream, s.device, init, switching);
      if entered.raised then entered else
        var r := Run(body, entered.state, switching);
        Outcome(ExitStream(r.state, stream, s.device, saved, switching), r.raised)
    case SetDevice(idx) => if idx in s.streams then Outcome(s.(device := idx), false) else Outcome(s, idx >= 0)
    case UseStream(st) =>
      if st.device in s.streams then Outcome(SetStream(s, st, switching), false) else Outcome(s, true)
  }

  // ---------------------------------------------------------------- when programs restore

  /** Entry to a device scope that switches the device and then raises, so that `__exit__` never runs. */
  predicate EntryLeaks(idx: int, init: Init, device: int, known: set<int>) {
    idx != -1 && idx != device && idx in known && init.LastRaises?
  }

  /** The program raises, read off its text for a given current device. */
  predicate Raises(p: Program, device: int, known: set<int>, switching: bool) {
    match p
    case Work => false
    case Raise => true
    case Sequence(a, b) => Raises(a, device, known, switching) || Raises(b, device, known, switching)
    case WithDevice(idx, init, body) =>
      if idx == -1 then Raises(body, device, known, switching)
      else !init.Returns? || (idx != device && idx !in known) || Raises(body, idx, known, switching)
    case WithStream(stream, init, body) =>
      if stream.None? || device == -1 then Raises(body, device, known, switching)
      else
        || init.FirstRaises? || stream.value.device !in known
        || (stream.value.device != device && init.LastRaises?)
        || Raises(body, if switching then stream.value.device else device, known, switching)
    case SetDevice(idx) => idx >= 0 && idx !in known
    case UseStream(st) => st.device !in known
  }

  /**
   Some entry leaks and no scope around it puts the device back: a device scope does so if it
   changed the device, a stream scope if setting a stream switches the device.
   */
  predicate Leaks(p: Program, device: int, known: set<int>, switching: bool) {
    match p
    case Work => false
    case Raise => false
    case Sequence(a, b) =>
      Leaks(a, device, known, switching) || (!Raises(a, device, known, switching) && Leaks(b, device, known, switching))
    case WithDevice(idx, init, body) =>
      if idx == -1 then Leaks(body, device, known, switching)
      else EntryLeaks(idx, init, device, known) || (idx == device && init.Returns? && Leaks(body, device, known, switching))
    case WithStream(stream, init, body) =>
      if stream.None? || device == -1 then Leaks(body, device, known, switching)
      else
        || EntryLeaks(stream.value.device, init, device, known)
        || (!switching && !init.FirstRaises? && stream.value.device in known
            && (stream.value.device == device || init.Returns?) && Leaks(body, device, known, switching))
    case SetDevice(_) => false
    case UseStream(_) => false
  }

  /** Entry to a stream scope, by cases. */
  lemma StreamEntry(s: State, st: Stream, init: Init, switching: bool)
    requires Valid(s) && s.device in s.streams
    ensures var (entered, saved) := EnterStream(s, Some(st), s.device, init, switching);
      && (entered.raised <==>
            init.FirstRaises? || st.device !in s.streams || (st.device != s.device && init.LastRaises?))
      && (entered.raised ==> entered.state.streams == s.streams)
      && (entered.raised ==> (entered.state == s <==> !EntryLeaks(st.device, init, s.device, s.streams.Keys)))
      && (!entered.raised ==> entered.state == SetStream(s, st, switching))
  {
  }

  /** Setting a stream makes it the current one of its device and of no other; the device moves only if that switches it. */
  lemma SetStreamMeaning(s: State, st: Stream, switching: bool, d: int)
    ensures var s' := SetStream(s, st, switching);
      && st.device in s'.streams && s'.streams[st.device] == st && s'.device == (if switching then st.device else s.device)
      && (d != st.device ==> (d in s'.streams <==> d in s.streams) && (d in s.streams ==> s'.streams[d] == s.streams[d]))
  {
  }

  /** In the body of a device scope that was entered its device is current and the streams are as before. */
  lemma DeviceInBody(s: State, idx: int, init: Init)
    requires !EnterDevice(s, idx, init).0.raised
    ensures var s' := EnterDevice(s, idx, init).0.state;
      s'.streams == s.streams && s'.device == if idx == -1 then s.device else idx
    ensures idx != -1 ==> EnterDevice(s, idx, init).1 == s.device
  {
  }

  /** In the body of a stream scope that was entered its stream is the current one of its device, and of no other. */
  lemma StreamInBody(s: State, st: Stream, init: Init, switching: bool, d: int)
    requires Valid(s) && s.device in s.streams && !EnterStream(s, Some(st), s.device, init, switching).0.raised
    ensures var s' := EnterStream(s, Some(st), s.device, init, switching).0.state;
      && st.device in s'.streams && s'.streams[st.device] == st && s'.device == (if switching then st.device else s.device)
      && s'.streams.Keys == s.streams.Keys && (d in s.streams && d != st.device ==> s'.streams[d] == s.streams[d])
    ensures EnterStream(s, Some(st), s.device, init, switching).1
         == Saved(Some(s.streams[s.device]), if st.device == s.device then None else Some(s.streams[st.device]))
  {
    StreamEntry(s, st, init, switching);
  }

  /** Leaving a stream scope puts the streams back, whatever device is current by then. */
  lemma StreamRestores(s: State, st: Stream, init: Init, switching: bool, device: int)
    requires Valid(s) && s.device in s.streams && !EnterStream(s, Some(st), s.device, init, switching).0.raised
    ensures var (entered, saved) := EnterStream(s, Some(st), s.device, init, switching);
      ExitStream(entered.state.(device := device), Some(st), s.device, saved, switching)
      == s.(device := if switching then s.device else device)
  {
    var (entered, saved) := EnterStream(s, Some(st), s.device, init, switching);
    StreamEntry(s, st, init, switching);
    assert ExitStream(entered.state.(device := device), Some(st), s.device, saved, switching).streams == s.streams;
  }

  /**
   Every program of nested scopes puts the streams back, and the device too if and only if it
   does not leak; whether it raises and leaks is read off its text, for either contract of
   `_supa_setStream`. A program that leaks raises.
   */
  lemma {:induction false} ScopesRestoreIff(p: Program, s: State, switching: bool)
    requires Valid(s) && Scoped(p)
    ensures var r := Run(p, s, switching);
      && r.state.streams == s.streams && r.raised == Raises(p, s.device, s.streams.Keys, switching)
      && (r.state == s <==> !Leaks(p, s.device, s.streams.Keys, switching))
      && (Leaks(p, s.device, s.streams.Keys, switching) ==> r.raised)
    decreases p, 0
  {
    match p
    case Work =>
    case Raise =>
    case Sequence(a, b) =>
      ScopesRestoreIff(a, s, switching);
      if !Run(a, s, switching).raised { ScopesRestoreIff(b, s, switching); }
    case WithDevice(idx, init, body) =>
      var entered := EnterDevice(s, idx, init).0;
      if !entered.raised { ScopesRestoreIff(body, entered.state, switching); }
    case WithStream(stream, init, body) =>
      if stream.None? || s.device == -1 {
        ScopesRestoreIff(body, s, switching);
      } else {
        StreamScopeRestoresIff(s, stream.value, init, body, switching);
      }
  }

  lemma {:induction false} StreamScopeRestoresIff(s: State, st: Stream, init: Init, body: Program, switching: bool)
    requires Valid(s) && Scoped(body) && s.device in s.streams
    ensures var p := WithStream(Some(st), init, body);
      var r := Run(p, s, switching);
      && r.state.streams == s.streams && r.raised == Raises(p, s.device, s.streams.Keys, switching)
      && (r.state == s <==> !Leaks(p, s.device, s.streams.Keys, switching))
      && (Leaks(p, s.device, s.streams.Keys, switching) ==> r.raised)
    decreases body, 1
  {
    StreamEntry(s, st, init, switching);
    var entered := EnterStream(s, Some(st), s.device, init, switching).0;
    if !entered.raised {
      ScopesRestoreIff(body, entered.state, switching);
      var r := Run(body, entered.state, switching);
      assert r.state == entered.state.(device := r.state.device);
      StreamRestores(s, st, init, switching, r.state.device);
      assert entered.state.streams.Keys == s.streams.Keys;
    }
  }

  /** No `_lazy_init` raises, as in every run once the runtime is initialised. */
  predicate Quiet(p: Program) {
    match p
    case Work => true
    case Raise => true
    case Sequence(a, b) => Quiet(a) && Quiet(b)
    case WithDevice(_, init, body) => init.Returns? && Quiet(body)
    case WithStream(_, init, body) => init.Returns? && Quiet(body)
    case SetDevice(_) => true
    case UseStream(_) => true
  }

  lemma {:induction false} QuietNeverLeaks(p: Program, device: int, known: set<int>, switching: bool)
    requires Quiet(p)
    ensures !Leaks(p, device, known, switching)
  {
    match p
    case Work =>
    case Raise =>
    case Sequence(a, b) =>
      QuietNeverLeaks(a, device, known, switching);
      QuietNeverLeaks(b, device, known, switching);
    case WithDevice(_, _, body) => QuietNeverLeaks(body, device, known, switching);
    case WithStream(_, _, body) => QuietNeverLeaks(body, device, known, switching);
    case SetDevice(_) =>
    case UseStream(_) =>
  }

  /** So as long as no lazy initialisation raises, every program of nested scopes ends in the state it began in. */
  lemma {:induction false} ScopesRestore(p: Program, s: State, switching: bool)
    requires Valid(s) && Scoped(p) && Quiet(p)
    ensures Run(p, s, switching).state == s
  {
    ScopesRestoreIff(p, s, switching);
    QuietNeverLeaks(p, s.device, s.streams.Keys, switching);
  }

  /** One device scope around a body that does not leak: it restores if and only if its own entry does not leak. */
  lemma OneScopeRestoresIff(idx: int, init: Init, body: Program, s: State, switching: bool)
    requires Valid(s) && Scoped(body) && Quiet(body)
    ensures Run(WithDevice(idx, init, body), s, switching).state == s
      <==> !(init.LastRaises? && idx != -1 && idx in s.streams && idx != s.device)
  {
    ScopesRestoreIff(WithDevice(idx, init, body), s, switching);
    QuietNeverLeaks(body, s.device, s.streams.Keys, switching);
  }

  /** The leak: the device stays switched although the `with` statement raised. */
  lemma EntryLeakExample()
    ensures var s := State(0, map[0 := Stream(0, 0), 1 := Stream(1, 1)]);
      && Valid(s)
      && Run(WithDevice(1, LastRaises, Work), s, false) == Outcome(s.(device := 1), true)
      && Run(WithDevice(0, Returns, WithDevice(1, LastRaises, Work)), s, false) == Outcome(s.(device := 1), true)
  {
  }

  /** A scope around the leak that changed the device puts it back. */
  lemma EnclosingScopeRestores(outer: int, inner: int, body: Program, s: State, switching: bool)
    requires Valid(s) && Scoped(body) && outer in s.streams && inner in s.streams && outer != inner
    ensures Run(WithDevice(outer, Returns, WithDevice(inner, LastRaises, body)), s, switching)
         == Outcome(if outer != s.device then s else s.(device := inner), true)
  {
  }

  // ---------------------------------------------------------------- initialisation is for good

  /** Run to its end, the program enters a scope that is not a no-op. */
  predicate Enters(p: Program, device: int) {
    match p
    case Work => false
    case Raise => false
    case Sequence(a, b) => Enters(a, device) || Enters(b, device)
    case WithDevice(idx, _, body) => idx != -1 || Enters(body, device)
    case WithStream(stream, _, body) => (stream.Some? && device != -1) || Enters(body, device)
    case SetDevice(_) => false
    case UseStream(_) => false
  }

  /** Once a `_lazy_init` of this program, or before it (`ready`), has returned normally, none raises any more. */
  predicate ReadyForGood(p: Program, device: int, switching: bool, ready: bool) {
    match p
    case Work => true
    case Raise => true
    case Sequence(a, b) =>
      ReadyForGood(a, device, switching, ready) && ReadyForGood(b, device, switching, ready || Enters(a, device))
    case WithDevice(idx, init, body) =>
      if idx == -1 then ReadyForGood(body, device, switching, ready)
      else (ready ==> init.Returns?) && ReadyForGood(body, idx, switching, true)
    case WithStream(stream, init, body) =>
      if stream.None? || device == -1 then ReadyForGood(body, device, switching, ready)
      else
        && (ready ==> init.Returns?) && !init.LastRaises?
        && ReadyForGood(body, if switching then stream.value.device else device, switching, true)
    case SetDevice(_) => true
    case UseStream(_) => true
  }

  /** The first scope that is not a no-op is a device scope whose entry leaks. */
  predicate FirstScopeLeaks(p: Program, device: int, known: set<int>, switching: bool) {
    match p
    case Work => false
    case Raise => false
    case Sequence(a, b) =>
      || FirstScopeLeaks(a, device, known, switching)
      || (!Enters(a, device) && !Raises(a, device, known, switching) && FirstScopeLeaks(b, device, known, switching))
    case WithDevice(idx, init, body) =>
      if idx == -1 then FirstScopeLeaks(body, device, known, switching) else EntryLeaks(idx, init, device, known)
    case WithStream(stream, _, body) => (stream.None? || device == -1) && FirstScopeLeaks(body, device, known, switching)
    case SetDevice(_) => false
    case UseStream(_) => false
  }

  lemma {:induction false} ReadyNeverLeaks(p: Program, device: int, known: set<int>, switching: bool)
    requires Scoped(p) && ReadyForGood(p, device, switching, true)
    ensures !Leaks(p, device, known, switching) && !FirstScopeLeaks(p, device, known, switching)
  {
    match p
    case Work =>
    case Raise =>
    case Sequence(a, b) =>
      ReadyNeverLeaks(a, device, known, switching);
      ReadyNeverLeaks(b, device, known, switching);
    case WithDevice(idx, _, body) => ReadyNeverLeaks(body, if idx == -1 then device else idx, known, switching);
    case WithStream(stream, _, body) =>
      if switching && stream.Some? && device != -1 {
        ReadyNeverLeaks(body, stream.value.device, known, switching);
      } else {
        ReadyNeverLeaks(body, device, known, switching);
      }
  }

  /** As initialisation is for good, only the first scope that is not a no-op can leak, and no scope around it helps. */
  lemma {:induction false} OnlyFirstScopeLeaks(p: Program, device: int, known: set<int>, switching: bool)
    requires Scoped(p) && ReadyForGood(p, device, switching, false)
    ensures Leaks(p, device, known, switching) <==> FirstScopeLeaks(p, device, known, switching)
  {
    match p
    case Work =>
    case Raise =>
    case Sequence(a, b) =>
      OnlyFirstScopeLeaks(a, device, known, switching);
      if Enters(a, device) { ReadyNeverLeaks(b, device, known, switching); } else { OnlyFirstScopeLeaks(b, device, known, switching); }
    case WithDevice(idx, _, body) =>
      if idx == -1 { OnlyFirstScopeLeaks(body, device, known, switching); } else { ReadyNeverLeaks(body, idx, known, switching); }
    case WithStream(stream, _, body) =>
      if stream.None? || device == -1 {
        OnlyFirstScopeLeaks(body, device, known, switching);
      } else {
        ReadyNeverLeaks(body, if switching then stream.value.device else device, known, switching);
      }
  }

  // ---------------------------------------------------------------- negative indices

  /** A negative index other than -1 is no device: the scope raises and its body never runs. */
  lemma NegativeIndexRaises(idx: int, init: Init, body: Program, s: State, switching: bool)
    requires Valid(s) && idx < -1
    ensures Run(WithDevice(idx, init, body), s, switching) == Outcome(s, true)
  {
  }

  /** The documentation calls a negative index a no-op; it is one, around every body, if and only if it is -1. */
  lemma NegativeIndexNoOpIff(idx: int, init: Init)
    requires idx < 0
    ensures (forall body, s, switching {:trigger Run(WithDevice(idx, init, body), s, switching)} :: Valid(s) ==>
               Run(WithDevice(idx, init, body), s, switching) == Run(body, s, switching))
      <==> idx == -1
  {
    var s := State(0, map[0 := Stream(0, 0)]);
    if idx < -1 {
      NegativeIndexRaises(idx, init, Work, s, false);
      assert Run(Work, s, false) == Outcome(s, false);
    }
  }

  // ---------------------------------------------------------------- raw calls in scopes

  /** Around an arbitrary body a device scope puts the device back exactly if it had to change it. */
  lemma DeviceScopeAroundAnything(idx: int, body: Program, s: State, switching: bool)
    requires Valid(s) && idx in s.streams
    ensures var inner := Run(body, s.(device := idx), switching);
      && Run(WithDevice(idx, Returns, body), s, switching).state.streams == inner.state.streams
      && Run(WithDevice(idx, Returns, body), s, switching).state.device == if s.device != idx then s.device else inner.state.device
  {
    assert s.device == idx ==> s == s.(device := idx);
  }

  /** So a body that calls set_device escapes from a scope for the current device. */
  lemma DeviceScopeLeaks(s: State, other: int, switching: bool)
    requires Valid(s) && s.device in s.streams && other in s.streams && other != s.device
    ensures Run(WithDevice(s.device, Returns, SetDevice(other)), s, switching).state.device == other
  {
  }

  /** The unscoped calls: they take effect on known devices, raise for unknown ones and leave all else alone. */
  lemma RawCalls(s: State, idx: int, st: Stream, switching: bool)
    requires Valid(s)
    ensures idx in s.streams ==> Run(SetDevice(idx), s, switching) == Outcome(State(idx, s.streams), false)
    ensures idx !in s.streams ==> Run(SetDevice(idx), s, switching) == Outcome(s, idx >= 0)
    ensures st.device in s.streams ==>
      Run(UseStream(st), s, switching) == Outcome(State(if switching then st.device else s.device, s.streams[st.device := st]), false)
    ensures st.device !in s.streams ==> Run(UseStream(st), s, switching) == Outcome(s, true)
  {
  }

  // ---------------------------------------------------------------- the objects

  class Runtime {
    var device: int
    var streams: map<int, Stream>
    const switching: bool

    function Value(): State reads this { State(device, streams) }

    constructor (s: State, switching: bool)
      ensures Value() == s && this.switching == switching
    {
      device, streams, this.switching := s.device, s.streams, switching;
    }

    method UseStream(st: Option<Stream>)
      modifies this
      ensures Value() == if st.Some? then SetStream(old(Value()), st.value, switching) else old(Value())
    {
      if st.None? { return; }
      streams := streams[st.value.device := st.value];
      if switching { device := st.value.device; }
    }
  }

  class DeviceScope {
    const idx: int
    var prevIdx: int

    constructor (idx: int)
      ensures this.idx == idx && prevIdx == -1
    {
      this.idx, prevIdx := idx, -1;
    }

    method Enter(rt: Runtime, init: Init) returns (raised: bool)
      modifies this, rt
      ensures Outcome(rt.Value(), raised) == EnterDevice(old(rt.Value()), idx, init).0
      ensures prevIdx == if idx == -1 || init.FirstRaises? then old(prevIdx) else old(rt.device)
    {
      raised := false;
      if idx == -1 { return; }
      if init.FirstRaises? { return true; }
      prevIdx := rt.device;
      if prevIdx != idx {
        if idx !in rt.streams { return true; }
        rt.device := idx;
      }
      raised := init.LastRaises?;
    }

    method Exit(rt: Runtime)
      modifies rt
      ensures rt.Value() == ExitDevice(old(rt.Value()), idx, prevIdx)
    {
      if prevIdx != idx { rt.device := prevIdx; }
    }
  }

  class StreamScope {
    const stream: Option<Stream>
    const idx: int
    var srcPrev: Option<Stream>
    var dstPrev: Option<Stream>

    constructor (stream: Option<Stream>, rt: Runtime)
      ensures this.stream == stream && idx == rt.device && srcPrev == None && dstPrev == None
    {
      this.stream, idx, srcPrev, dstPrev := stream, rt.device, None, None;
    }

    method Enter(rt: Runtime, init: Init) returns (raised: bool)
      requires Valid(rt.Value()) && idx == rt.device && srcPrev == None && dstPrev == None
      modifies this, rt
      ensures (Outcome(rt.Value(), raised), Saved(srcPrev, dstPrev)) == EnterStream(old(rt.Value()), stream, idx, init, rt.switching)
    {
      raised := false;
      if stream.None? || idx == -1 { return; }
      if init.FirstRaises? { return true; }
      var cur := stream.value;
      srcPrev := Some(rt.streams[rt.device]);
      if srcPrev.value.device != cur.device {
        var scope := new DeviceScope(cur.device);
        raised := scope.Enter(rt, init);
        if raised || cur.device !in rt.streams { return true; }
        dstPrev := Some(rt.streams[cur.device]);
        scope.Exit(rt);
      }
      rt.UseStream(Some(cur));
    }

    method Exit(rt: Runtime)
      modifies rt
      ensures rt.Value() == ExitStream(old(rt.Value()), stream, idx, Saved(srcPrev, dstPrev), rt.switching)
    {
      if stream.None? || idx == -1 || srcPrev.None? { return; }
      if srcPrev.value.device != stream.value.device { rt.UseStream(dstPrev); }
      rt.UseStream(srcPrev);
    }
  }

  /** Runs a program with new scope objects. */
  method Execute(p: Program, rt: Runtime) returns (raised: bool)
    requires Valid(rt.Value())
    modifies rt
    ensures Outcome(rt.Value(), raised) == Run(p, old(rt.Value()), rt.switching)
    ensures Scoped(p) ==> (rt.Value() == old(rt.Value()) <==> !Leaks(p, old(rt.device), old(rt.streams).Keys, rt.switching))
    decreases p
  {
    if Scoped(p) { ScopesRestoreIff(p, rt.Value(), rt.switching); }
    match p
    case Work => raised := false;
    case Raise => raised := true;
    case Sequence(a, b) =>
      raised := Execute(a, rt);
      if !raised { raised := Execute(b, rt); }
    case WithDevice(idx, init, body) =>
      var scope := new DeviceScope(idx);
      raised := scope.Enter(rt, init);
      if !raised {
        raised := Execute(body, rt);
        scope.Exit(rt);
      }
    case WithStream(stream, init, body) =>
      var scope := new StreamScope(stream, rt);
      raised := scope.Enter(rt, init);
      if !raised {
        raised := Execute(body, rt);
        scope.Exit(rt);
      }
    case SetDevice(idx) =>
      raised := idx >= 0 && idx !in rt.streams;
      if idx in rt.streams { rt.device := idx; }
    case UseStream(st) =>
      raised := st.device !in rt.streams;
      if !raised { rt.UseStream(Some(st)); }
  }

  /**
   One device object entered twice, the second time inside the first, forgets where it came
   from: the device is put back if and only if it was already the right one.
   */
  method Reenter(scope: DeviceScope, rt: Runtime)
    requires Valid(rt.Value()) && scope.idx in rt.streams
    modifies scope, rt
    ensures rt.device == scope.idx
    ensures rt.Value() == old(rt.Value()) <==> old(rt.device) == scope.idx
  {
    var raised := scope.Enter(rt, Returns);
    raised := scope.Enter(rt, Returns);
    scope.Exit(rt);
    scope.Exit(rt);
  }
}
