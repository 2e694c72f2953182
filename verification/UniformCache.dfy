/** ShaderProgram's uniform-location cache and its two public SetUniform overloads
    (ShaderManager.h). The cache is an std::unordered_map whose keys are heap copies of
    uniform names, hashed and compared by contents (module CStrings); it is modelled as a
    map from a name's contents to the location the backend returned for it.
    glGetUniformLocation is a parameter (a function of the name's contents for this
    program), and so is whether malloc succeeds. */
module UniformCache {
  import opened CStrings
  import opened UniformDispatch

  /** glGetUniformLocation(Program, ·) for the program at hand. */
  type Backend = seq<byte> -> int

  /** A program's cache of looked-up names. */
  datatype Program = Program(locations: map<seq<byte>, int>)

  /** A fresh program caches nothing. */
  const Fresh: Program := Program(map[])

  /** Cached keys are C-string contents: they hold no NUL. */
  predicate Valid(p: Program)
  {
    forall key: seq<byte> :: key in p.locations ==> 0 !in key
  }

  /** Every cached location is what the backend answers for that name; -1 included. */
  predicate Coherent(p: Program, backend: Backend)
  {
    forall key :: key in p.locations ==> p.locations[key] == backend(key)
  }

  /** A lookup's result: the cache afterwards, the location returned, and how many
      times the backend was asked. */
  datatype Lookup = Lookup(program: Program, location: int, backendCalls: nat)

  /** GetUniformLocation. A cached name answers from the cache. Otherwise the backend
      is asked; if the copy of the name can be allocated its answer (even -1) is cached
      and returned, and if not, -1 is returned and nothing is cached. */
  function GetUniformLocation(p: Program, name: seq<byte>, backend: Backend, allocates: bool)
    : (r: Lookup)
    requires Valid(p) && Terminated(name)
    ensures Valid(r.program)
    ensures CString(name) in p.locations ==>
              r.program == p && r.location == p.locations[CString(name)] && r.backendCalls == 0
    ensures CString(name) !in p.locations ==> r.backendCalls == 1
    ensures CString(name) !in p.locations && allocates ==>
              r.program.locations == p.locations[CString(name) := backend(CString(name))] &&
              r.location == backend(CString(name))
    ensures CString(name) !in p.locations && !allocates ==> r.program == p && r.location == -1
    ensures r.program.locations.Keys == p.locations.Keys ||
            r.program.locations.Keys == p.locations.Keys + {CString(name)}
  {
    var key := CString(name);
    if key in p.locations then
      Lookup(p, p.locations[key], 0)
    else
      var location := backend(key);
      if !allocates then
        Lookup(p, -1, 1)
      else
        Lookup(Program(p.locations[key := location]), location, 1)
  }

  /** The cache never changes an answer: from a coherent cache, a lookup stays coherent
      and returns the backend's answer for the name, or -1 when the name could not be
      stored. */
  lemma LookupIsTransparent(p: Program, name: seq<byte>, backend: Backend, allocates: bool)
    requires Valid(p) && Terminated(name) && Coherent(p, backend)
    ensures var r := GetUniformLocation(p, name, backend, allocates);
            Coherent(r.program, backend) &&
            (CString(name) in p.locations || allocates ==> r.location == backend(CString(name))) &&
            (CString(name) !in p.locations && !allocates ==> r.location == -1)
  {
  }

  /** Names are found by contents: two buffers that strcmp equal look up identically,
      wherever they live. */
  lemma LookupByContents(p: Program, a: seq<byte>, b: seq<byte>, backend: Backend, allocates: bool)
    requires Valid(p) && Terminated(a) && Terminated(b)
    requires Equal(a, b)
    ensures GetUniformLocation(p, a, backend, allocates) == GetUniformLocation(p, b, backend, allocates)
  {
  }

  /** The outcome of a public SetUniform: the cache afterwards, the returned flag, the
      commands sent to OpenGL, and the backend lookups made. */
  datatype Outcome = Outcome(program: Program, ok: bool, sent: seq<GlCall>, backendCalls: nat)

  /** SetUniform(Name, Value): false, with nothing sent, exactly when the location
      resolves to -1; otherwise exactly the one command the type dispatch picks for the
      value (never transposed, carrying the value's components), and true. */
  function SetUniform(p: Program, name: seq<byte>, v: UniformValue, backend: Backend, allocates: bool)
    : (r: Outcome)
    requires Valid(p) && Terminated(name) && WellTyped(v)
    ensures Valid(r.program)
    ensures var l := GetUniformLocation(p, name, backend, allocates);
            r.program == l.program && r.backendCalls == l.backendCalls &&
            (r.ok <==> l.location != -1) &&
            (r.ok ==> r.sent == [Dispatch(l.location, v)]) &&
            (r.ok ==> LocationOf(r.sent[0]) == l.location && TypeOfCall(r.sent[0]) == v.ty) &&
            (!r.ok ==> r.sent == [])
  {
    var l := GetUniformLocation(p, name, backend, allocates);
    if l.location == -1 then Outcome(l.program, false, [], l.backendCalls)
    else Outcome(l.program, true, [Dispatch(l.location, v)], l.backendCalls)
  }

  /** SetUniform(Name, Values, Count): the same, through the array dispatch, with the
      caller's count and array passed on. */
  function SetUniformArray(p: Program, name: seq<byte>, ty: UniformType, address: int, count: int,
                           backend: Backend, allocates: bool)
    : (r: Outcome)
    requires Valid(p) && Terminated(name)
    ensures Valid(r.program)
    ensures var l := GetUniformLocation(p, name, backend, allocates);
            r.program == l.program && r.backendCalls == l.backendCalls &&
            (r.ok <==> l.location != -1) &&
            (r.ok ==> r.sent == [DispatchArray(l.location, ty, count, address)]) &&
            (r.ok ==> LocationOf(r.sent[0]) == l.location && r.sent[0].count == count &&
                      r.sent[0].data == CallerArray(address) && TypeOfCall(r.sent[0]) == ty) &&
            (!r.ok ==> r.sent == [])
  {
    var l := GetUniformLocation(p, name, backend, allocates);
    if l.location == -1 then Outcome(l.program, false, [], l.backendCalls)
    else Outcome(l.program, true, [DispatchArray(l.location, ty, count, address)], l.backendCalls)
  }

  // ----- Repeated calls -----

  /** One call of SetUniform(Name, Value), with whether its allocation (on a miss) works. */
  datatype UniformCall = UniformCall(name: seq<byte>, value: UniformValue, allocates: bool)

  predicate CallOk(c: UniformCall)
  {
    Terminated(c.name) && WellTyped(c.value)
  }

  /** A program taking the calls in order: the final cache, each call's returned flag,
      everything sent, and the total backend lookups. */
  function Session(p: Program, backend: Backend, calls: seq<UniformCall>)
    : (r: (Program, seq<bool>, seq<GlCall>, nat))
    requires Valid(p) && forall i :: 0 <= i < |calls| ==> CallOk(calls[i])
    ensures Valid(r.0) && |r.1| == |calls|
    ensures Coherent(p, backend) ==> Coherent(r.0, backend)
    ensures p.locations.Keys <= r.0.locations.Keys
    decreases |calls|
  {
    if |calls| == 0 then (p, [], [], 0)
    else
      var (q, answers, sent, lookups) := Session(p, backend, calls[..|calls| - 1]);
      var c := calls[|calls| - 1];
      assert CallOk(c);
      var o := SetUniform(q, c.name, c.value, backend, c.allocates);
      (o.program, answers + [o.ok], sent + o.sent, lookups + o.backendCalls)
  }

  /** Any number of SetUniform calls with one name, while allocation succeeds, ask the
      backend at most once: never if the name was cached, once otherwise. Every call
      answers the same: true exactly when the name's location is not -1. */
  lemma {:induction false} RepeatedSetUniform(p: Program, backend: Backend, calls: seq<UniformCall>,
                                              key: seq<byte>)
    requires Valid(p) && Coherent(p, backend) && |calls| > 0
    requires forall i :: 0 <= i < |calls| ==>
               CallOk(calls[i]) && calls[i].allocates && CString(calls[i].name) == key
    ensures var (q, answers, _, lookups) := Session(p, backend, calls);
            lookups == (if key in p.locations then 0 else 1) &&
            key in q.locations && q.locations[key] == backend(key) &&
            forall i :: 0 <= i < |answers| ==> (answers[i] <==> backend(key) != -1)
    decreases |calls|
  {
    var prefix := calls[..|calls| - 1];
    var c := calls[|calls| - 1];
    if |prefix| == 0 {
      assert Session(p, backend, prefix) == (p, [], [], 0);
    } else {
      RepeatedSetUniform(p, backend, prefix, key);
    }
    var (q, answers, sent, lookups) := Session(p, backend, prefix);
    assert CString(c.name) == key;
    var o := SetUniform(q, c.name, c.value, backend, c.allocates);
    assert Session(p, backend, calls).1 == answers + [o.ok];
  }

  /** A uniform the program has, set 100 times from a fresh program: one backend lookup,
      all 100 calls true. A uniform it lacks: one lookup, all 100 false. */
  lemma HundredCalls(backend: Backend, present: seq<byte>, absent: seq<byte>, v: UniformValue)
    requires 0 !in present && 0 !in absent && WellTyped(v)
    requires backend(present) != -1 && backend(absent) == -1
    ensures var calls := seq(100, _ => UniformCall(present + [0], v, true));
            var (_, answers, _, lookups) := Session(Fresh, backend, calls);
            lookups == 1 && |answers| == 100 && forall i :: 0 <= i < 100 ==> answers[i]
    ensures var calls := seq(100, _ => UniformCall(absent + [0], v, true));
            var (_, answers, _, lookups) := Session(Fresh, backend, calls);
            lookups == 1 && |answers| == 100 && forall i :: 0 <= i < 100 ==> !answers[i]
  {
    CStringOfStored(present, []);
    CStringOfStored(absent, []);
    assert present + [0] + [] == present + [0];
    assert absent + [0] + [] == absent + [0];
    RepeatedSetUniform(Fresh, backend, seq(100, _ => UniformCall(present + [0], v, true)), present);
    RepeatedSetUniform(Fresh, backend, seq(100, _ => UniformCall(absent + [0], v, true)), absent);
  }
}
