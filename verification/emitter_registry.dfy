/** The static registry of `FluidEmitterComponent<T>` (FluidEmitterComponent.cs):
    a linked list of the emitters of enabled components, in enable order, and a
    list rebuilt from it on demand. `None` stands for a `null` static; a linked-list
    node is identified by the number the registry gave it when it was added. */
module EmitterRegistry {
  import opened Wrappers

  datatype Node<T> = Node(id: nat, value: T)

  datatype Registry<T> = Registry(instances: Option<seq<Node<T>>>, instancesList: Option<seq<T>>, nextId: nat)

  /** Both statics start out `null`. */
  function InitialRegistry<T>(): Registry<T>
  {
    Registry(None, None, 0)
  }

  datatype RegistryError = NullReference | ArgumentNull | NodeNotInList

  /** Node identities are unique and below the next one to be handed out. */
  ghost predicate Valid<T>(reg: Registry<T>)
  {
    reg.instances.Some? ==>
      && (forall i :: 0 <= i < |reg.instances.value| ==> reg.instances.value[i].id < reg.nextId)
      && (forall i, j :: 0 <= i < j < |reg.instances.value| ==>
            reg.instances.value[i].id != reg.instances.value[j].id)
  }

  function Values<T>(nodes: seq<Node<T>>): (r: seq<T>)
    ensures |r| == |nodes|
    ensures forall i :: 0 <= i < |nodes| ==> r[i] == nodes[i].value
  {
    if |nodes| == 0 then [] else [nodes[0].value] + Values(nodes[1..])
  }

  /** `GetEmitterInstances`: creates the linked list if it is `null`, clears (or
      creates) the shared list, and refills it by walking the nodes from the first. */
  function GetEmitterInstances<T>(reg: Registry<T>): (r: (Registry<T>, seq<T>))
    ensures r.0.instances.Some?
    ensures reg.instances.Some? ==> r.0.instances == reg.instances
    ensures reg.instances.None? ==> r.0.instances == Some([]) && r.1 == []
    ensures |r.1| == |r.0.instances.value|
    ensures forall i :: 0 <= i < |r.1| ==> r.1[i] == r.0.instances.value[i].value
    ensures r.0.instancesList == Some(r.1)
    ensures r.0.nextId == reg.nextId
  {
    var nodes := if reg.instances.None? then [] else reg.instances.value;
    var list := Values(nodes);
    (reg.(instances := Some(nodes), instancesList := Some(list)), list)
  }

  /** A component: the emitter `Awake` created, and its node while enabled. */
  datatype Component<T> = Component(emitter: T, node: Option<nat>)

  /** `Awake`: `Emitter = new T()`, passed in as `created`. */
  function Awake<T>(created: T): (c: Component<T>)
    ensures c.emitter == created && c.node.None?
  {
    Component(created, None)
  }

  /** `OnEnable` as written: `AddLast` on the static linked list, which only
      `GetEmitterInstances` ever creates. */
  function OnEnable<T>(reg: Registry<T>, c: Component<T>): (r: Result<(Registry<T>, Component<T>), RegistryError>)
    ensures reg.instances.None? <==> r.Err?
    ensures r.Ok? ==> r.value.0.instances == Some(reg.instances.value + [Node(reg.nextId, c.emitter)])
  {
    if reg.instances.None? then Err(NullReference)
    else Ok(Append(reg, c))
  }

  function Append<T>(reg: Registry<T>, c: Component<T>): (r: (Registry<T>, Component<T>))
    requires reg.instances.Some?
    ensures r.0.instances == Some(reg.instances.value + [Node(reg.nextId, c.emitter)])
    ensures r.0.nextId == reg.nextId + 1 && r.1 == c.(node := Some(reg.nextId))
    ensures r.0.instancesList == reg.instancesList
    ensures Valid(reg) ==> Valid(r.0)
  {
    (reg.(instances := Some(reg.instances.value + [Node(reg.nextId, c.emitter)]), nextId := reg.nextId + 1),
     c.(node := Some(reg.nextId)))
  }

  /** A component enabled before anything asked for the instances hits the `null` list. */
  lemma EnableBeforeFirstQueryFails<T>(created: T)
    ensures OnEnable(InitialRegistry<T>(), Awake(created)) == Err(NullReference)
  {
  }

  /** `OnEnable` with the list created on first use, as the registry evidently intends. */
  function OnEnableFixed<T>(reg: Registry<T>, c: Component<T>): (r: (Registry<T>, Component<T>))
    ensures Valid(reg) ==> Valid(r.0)
    ensures r.1.node == Some(reg.nextId)
    ensures GetEmitterInstances(r.0).1 == GetEmitterInstances(reg).1 + [c.emitter]
  {
    var reg1 := if reg.instances.None? then reg.(instances := Some([])) else reg;
    var r := Append(reg1, c);
    ValuesAppend(reg1.instances.value, Node(reg.nextId, c.emitter));
    r
  }

  lemma {:induction false} ValuesAppend<T>(nodes: seq<Node<T>>, n: Node<T>)
    ensures Values(nodes + [n]) == Values(nodes) + [n.value]
  {
    var a, b := Values(nodes + [n]), Values(nodes) + [n.value];
    assert |a| == |b|;
    forall i | 0 <= i < |a| ensures a[i] == b[i] {
      if i < |nodes| {
        assert (nodes + [n])[i] == nodes[i];
      }
    }
  }

  /** Position of the node with identity `id`. */
  function IndexOf<T>(nodes: seq<Node<T>>, id: nat): (r: Option<nat>)
    ensures r.Some? ==> r.value < |nodes| && nodes[r.value].id == id
    ensures r.Some? ==> forall j :: 0 <= j < r.value ==> nodes[j].id != id
    ensures r.None? <==> forall i :: 0 <= i < |nodes| ==> nodes[i].id != id
    decreases |nodes|
  {
    if |nodes| == 0 then None
    else if nodes[0].id == id then Some(0)
    else
      var r := IndexOf(nodes[1..], id);
      assert forall i :: 1 <= i < |nodes| ==> nodes[i] == nodes[1..][i - 1];
      if r.None? then None else Some(r.value + 1)
  }

  /** `OnDisable`: `Remove(node)` on the linked list, then forgets the node.
      `Remove` throws on a `null` node and on a node that is not in the list. */
  function OnDisable<T>(reg: Registry<T>, c: Component<T>): (r: Result<(Registry<T>, Component<T>), RegistryError>)
    ensures r.Ok? <==> reg.instances.Some? && c.node.Some? && IndexOf(reg.instances.value, c.node.value).Some?
    ensures r.Ok? ==>
      var nodes := reg.instances.value;
      var i := IndexOf(nodes, c.node.value).value;
      && r.value.0.instances == Some(nodes[..i] + nodes[i + 1..])
      && r.value.1 == c.(node := None)
      && r.value.0.nextId == reg.nextId
    ensures r.Ok? && Valid(reg) ==> Valid(r.value.0)
  {
    if reg.instances.None? then Err(NullReference)
    else if c.node.None? then Err(ArgumentNull)
    else
      var nodes := reg.instances.value;
      match IndexOf(nodes, c.node.value)
      case None => Err(NodeNotInList)
      case Some(i) =>
        var rest := nodes[..i] + nodes[i + 1..];
        assert forall k :: 0 <= k < |rest| ==> rest[k] == nodes[if k < i then k else k + 1];
        Ok((reg.(instances := Some(rest)), c.(node := None)))
  }

  /** Disabling a component right after enabling it gives back the list it found. */
  lemma {:induction false} EnableThenDisableRestores<T>(reg: Registry<T>, c: Component<T>)
    requires Valid(reg)
    ensures var (reg1, c1) := OnEnableFixed(reg, c);
      && OnDisable(reg1, c1).Ok?
      && GetEmitterInstances(OnDisable(reg1, c1).value.0).1 == GetEmitterInstances(reg).1
  {
    var (reg1, c1) := OnEnableFixed(reg, c);
    var nodes := if reg.instances.None? then [] else reg.instances.value;
    var all := nodes + [Node(reg.nextId, c.emitter)];
    assert reg1.instances == Some(all);
    assert forall k :: 0 <= k < |nodes| ==> all[k].id < reg.nextId;
    assert all[|nodes|].id == reg.nextId;
    assert all[..|nodes|] + all[|nodes| + 1..] == nodes;
  }
}
