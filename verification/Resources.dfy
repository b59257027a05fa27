/** Resources, their parameters, and where they can be; shared by the thread and coroutine pools. */
module Resources {
  import opened Common

  /** The types a Parameter can hold. */
  datatype Value = IntValue(i: int) | BoolValue(b: bool) | DoubleValue(d: real) | StringValue(s: string)

  type Param = map<string, Value>

  /** A resource with the parameters it was constructed from. */
  datatype Resource = Resource(id: nat, param: Param, version: int)

  /** bound: whether the closer still points to the pool. */
  datatype Handle = Handle(resource: Resource, bound: bool)

  /** The parameters after setParam; None when the types clash. */
  function Updated(param: Param, name: string, value: Value): Option<Param> {
    if name in param && !SameType(param[name], value) then None else Some(param[name := value])
  }

  predicate SameType(a: Value, b: Value) {
    (a.IntValue? <==> b.IntValue?) && (a.BoolValue? <==> b.BoolValue?) && (a.DoubleValue? <==> b.DoubleValue?)
  }

  /** An update stores the value, unless it is of another type, and leaves every other parameter as it is. */
  lemma UpdatedStores(param: Param, name: string, value: Value)
    ensures Updated(param, name, value).None? <==> name in param && !SameType(param[name], value)
    ensures Updated(param, name, value).Some? ==>
              var after := Updated(param, name, value).value;
              && after.Keys == param.Keys + {name} && after[name] == value
              && forall other :: other in param && other != name ==> after[other] == param[other]
  {
  }

  /** Two values are of one type when they were built by the same constructor. */
  lemma SameTypeIff(a: Value, b: Value)
    ensures SameType(a, b)
            <==> (a.IntValue? && b.IntValue?) || (a.BoolValue? && b.BoolValue?)
                 || (a.DoubleValue? && b.DoubleValue?) || (a.StringValue? && b.StringValue?)
  {
  }

  // ----- Places -----

  ghost predicate Distinct(rs: seq<Resource>) {
    forall i, j :: 0 <= i < j < |rs| ==> rs[i].id != rs[j].id
  }

  ghost predicate Apart(a: seq<Resource>, b: seq<Resource>) {
    forall i, j :: 0 <= i < |a| && 0 <= j < |b| ==> a[i].id != b[j].id
  }

  ghost predicate ApartFromHandles(rs: seq<Resource>, handles: map<nat, Handle>) {
    forall i, h :: 0 <= i < |rs| && h in handles ==> rs[i].id != handles[h].resource.id
  }

  /** No resource is in two places at once or twice in one place: idle, handed out, or freed. */
  ghost predicate Placed(idle: seq<Resource>, handles: map<nat, Handle>, freed: seq<Resource>) {
    && Distinct(idle) && Distinct(freed) && Apart(idle, freed)
    && (forall a, b :: a in handles && b in handles && a != b ==> handles[a].resource.id != handles[b].resource.id)
    && ApartFromHandles(idle, handles) && ApartFromHandles(freed, handles)
  }

  lemma HandOutIdle(idle: seq<Resource>, handles: map<nat, Handle>, freed: seq<Resource>, h: nat)
    requires Placed(idle, handles, freed) && idle != [] && h !in handles
    ensures Placed(idle[1..], handles[h := Handle(idle[0], true)], freed)
  {
    var rest := idle[1..];
    assert forall i :: 0 <= i < |rest| ==> rest[i] == idle[i + 1];
  }

  lemma HandOutNew(idle: seq<Resource>, handles: map<nat, Handle>, freed: seq<Resource>, h: nat, r: Resource)
    requires Placed(idle, handles, freed) && h !in handles
    requires !IdIn(idle, r.id) && !IdIn(freed, r.id) && !IdHeld(handles, r.id)
    ensures Placed(idle, handles[h := Handle(r, true)], freed)
  {
  }

  lemma FreeIdle(idle: seq<Resource>, handles: map<nat, Handle>, freed: seq<Resource>)
    requires Placed(idle, handles, freed)
    ensures Placed([], handles, freed + idle)
  {
  }

  lemma MoveToIdle(idle: seq<Resource>, handles: map<nat, Handle>, freed: seq<Resource>, h: nat)
    requires Placed(idle, handles, freed) && h in handles
    ensures Placed(idle + [handles[h].resource], handles - {h}, freed)
  {
    var after := idle + [handles[h].resource];
    assert forall i :: 0 <= i < |idle| ==> after[i] == idle[i];
    assert Distinct(after);
    assert Apart(after, freed);
    assert ApartFromHandles(after, handles - {h});
  }

  lemma MoveToFreed(idle: seq<Resource>, handles: map<nat, Handle>, freed: seq<Resource>, h: nat)
    requires Placed(idle, handles, freed) && h in handles
    ensures Placed(idle, handles - {h}, freed + [handles[h].resource])
  {
    var after := freed + [handles[h].resource];
    assert forall i :: 0 <= i < |freed| ==> after[i] == freed[i];
    assert Distinct(after);
    assert Apart(idle, after);
    assert ApartFromHandles(after, handles - {h});
  }

  ghost predicate IdIn(rs: seq<Resource>, id: nat) {
    exists i :: 0 <= i < |rs| && rs[i].id == id
  }

  ghost predicate IdHeld(handles: map<nat, Handle>, id: nat) {
    exists h :: h in handles && handles[h].resource.id == id
  }

  lemma AppendKeepsIds(rs: seq<Resource>, more: seq<Resource>, id: nat)
    ensures IdIn(rs + more, id) <==> IdIn(rs, id) || IdIn(more, id)
  {
    var all := rs + more;
    if IdIn(rs, id) {
      var i :| 0 <= i < |rs| && rs[i].id == id;
      assert all[i].id == id;
    }
    if IdIn(more, id) {
      var i :| 0 <= i < |more| && more[i].id == id;
      assert all[|rs| + i].id == id;
    }
    if IdIn(all, id) {
      var i :| 0 <= i < |all| && all[i].id == id;
      assert i >= |rs| ==> more[i - |rs|].id == id;
    }
  }

  /** Every resource ever built is somewhere. */
  ghost predicate NoneLost(idle: seq<Resource>, handles: map<nat, Handle>, freed: seq<Resource>, built: nat) {
    forall id :: 0 <= id < built ==> IdIn(idle, id) || IdHeld(handles, id) || IdIn(freed, id)
  }

  lemma HandOutIdleLosesNone(idle: seq<Resource>, handles: map<nat, Handle>, freed: seq<Resource>, built: nat, h: nat)
    requires NoneLost(idle, handles, freed, built) && idle != [] && h !in handles
    ensures NoneLost(idle[1..], handles[h := Handle(idle[0], true)], freed, built)
  {
    var more := handles[h := Handle(idle[0], true)];
    assert more[h].resource.id == idle[0].id;
    forall id | 0 <= id < built
      ensures IdIn(idle[1..], id) || IdHeld(more, id) || IdIn(freed, id)
    {
      if IdIn(idle, id) {
        var i :| 0 <= i < |idle| && idle[i].id == id;
        assert i > 0 ==> idle[1..][i - 1].id == id;
      } else if IdHeld(handles, id) {
        var a :| a in handles && handles[a].resource.id == id;
        assert more[a].resource.id == id;
      }
    }
  }

  lemma HandOutNewLosesNone(idle: seq<Resource>, handles: map<nat, Handle>, freed: seq<Resource>, built: nat, h: nat,
                            r: Resource)
    requires NoneLost(idle, handles, freed, built) && h !in handles && r.id == built
    ensures NoneLost(idle, handles[h := Handle(r, true)], freed, built + 1)
  {
    var more := handles[h := Handle(r, true)];
    assert more[h].resource.id == built;
    forall id | 0 <= id < built + 1
      ensures IdIn(idle, id) || IdHeld(more, id) || IdIn(freed, id)
    {
      if IdHeld(handles, id) {
        var a :| a in handles && handles[a].resource.id == id;
        assert more[a].resource.id == id;
      }
    }
  }

  lemma ReturnLosesNone(idle: seq<Resource>, handles: map<nat, Handle>, freed: seq<Resource>, built: nat, h: nat)
    requires NoneLost(idle, handles, freed, built) && h in handles
    ensures NoneLost(idle + [handles[h].resource], handles - {h}, freed, built)
    ensures NoneLost(idle, handles - {h}, freed + [handles[h].resource], built)
  {
    var r := handles[h].resource;
    forall id | 0 <= id < built
      ensures IdIn(idle + [r], id) || IdHeld(handles - {h}, id) || IdIn(freed, id)
      ensures IdIn(idle, id) || IdHeld(handles - {h}, id) || IdIn(freed + [r], id)
    {
      AppendKeepsIds(idle, [r], id);
      AppendKeepsIds(freed, [r], id);
      assert id == r.id ==> [r][0].id == id;
      if id != r.id && IdHeld(handles, id) {
        var a :| a in handles && handles[a].resource.id == id;
        assert (handles - {h})[a].resource.id == id;
      }
    }
  }

  lemma FreeIdleLosesNone(idle: seq<Resource>, handles: map<nat, Handle>, freed: seq<Resource>, built: nat)
    requires NoneLost(idle, handles, freed, built)
    ensures NoneLost([], handles, freed + idle, built)
  {
    forall id | 0 <= id < built
      ensures IdHeld(handles, id) || IdIn(freed + idle, id)
    {
      AppendKeepsIds(freed, idle, id);
    }
  }

  lemma FreeFront(idle: seq<Resource>, handles: map<nat, Handle>, freed: seq<Resource>, built: nat)
    requires Placed(idle, handles, freed) && NoneLost(idle, handles, freed, built) && idle != []
    ensures Placed(idle[1..], handles, freed + [idle[0]]) && NoneLost(idle[1..], handles, freed + [idle[0]], built)
  {
    var rest, more := idle[1..], freed + [idle[0]];
    assert forall i :: 0 <= i < |rest| ==> rest[i] == idle[i + 1];
    assert Apart(rest, more);
    assert ApartFromHandles(more, handles);
    forall id | 0 <= id < built
      ensures IdIn(rest, id) || IdHeld(handles, id) || IdIn(more, id)
    {
      AppendKeepsIds(freed, [idle[0]], id);
      AppendKeepsIds([idle[0]], rest, id);
      assert [idle[0]] + rest == idle;
      assert id == idle[0].id ==> [idle[0]][0].id == id;
    }
  }

  // ----- Numbering -----

  ghost predicate AllBelow(rs: seq<Resource>, n: nat) {
    forall i :: 0 <= i < |rs| ==> rs[i].id < n
  }

  ghost predicate HandlesBelow(handles: map<nat, Handle>, nextResource: nat, nextHandle: nat) {
    forall h :: h in handles ==> handles[h].resource.id < nextResource && h < nextHandle
  }

  lemma AppendBelow(rs: seq<Resource>, r: Resource, n: nat)
    requires AllBelow(rs, n) && r.id < n
    ensures AllBelow(rs + [r], n)
  {
  }

  lemma AddHandle(handles: map<nat, Handle>, h: nat, handle: Handle)
    requires h !in handles
    ensures handles[h := handle].Keys == handles.Keys + {h}
    ensures |handles[h := handle]| == |handles| + 1
  {
    assert handles[h := handle].Keys == handles.Keys + {h};
  }

  // ----- Unbinding -----

  /** The handles after the pool has unbound the closers it knows of. */
  function Unbound(handles: map<nat, Handle>, closers: set<nat>): map<nat, Handle> {
    map h | h in handles :: if h in closers then handles[h].(bound := false) else handles[h]
  }

  lemma UnboundKeepsPlaces(idle: seq<Resource>, handles: map<nat, Handle>, freed: seq<Resource>, closers: set<nat>,
                           built: nat)
    requires Placed(idle, handles, freed) && NoneLost(idle, handles, freed, built)
    ensures Placed(idle, Unbound(handles, closers), freed) && NoneLost(idle, Unbound(handles, closers), freed, built)
  {
    var after := Unbound(handles, closers);
    forall id | 0 <= id < built
      ensures IdIn(idle, id) || IdHeld(after, id) || IdIn(freed, id)
    {
      if IdHeld(handles, id) {
        var a :| a in handles && handles[a].resource.id == id;
        assert after[a].resource.id == id;
      }
    }
  }

  /** The next element of an unordered set: the order of the iteration is not specified. */
  method AnyCloser<T>(closers: set<T>) returns (closer: T)
    requires closers != {}
    ensures closer in closers
  {
    closer :| closer in closers;
  }
}
