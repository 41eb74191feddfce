/** What a run means, without layers taking turns: a set of dataflow equations over the final activation,
    ports and State. A run finishes exactly when the equations have a solution, and then with it. */
module Dataflow {
  import opened Prelude
  import opened FlowIr
  import opened Paths
  import opened Layering
  import opened Wiring
  import opened State
  import opened LayeredEngine
  import opened Firing
  import opened LateFiring
  import opened Legs

  // ---------------------------------------------------------------- deliveries of a whole run

  /** What the caller's inputs deliver: the declared inputs, then the input mappings. */
  function InputSends(f: Flow, inputs: map<string, Value>, i: nat): Option<seq<Delivery>>
    requires i <= |f.inputs|
    decreases |f.inputs| - i
  {
    if i == |f.inputs| then Some([])
    else
      var ref := f.inputs[i];
      if ref.name !in inputs then None
      else Both(Some([Delivery(PortKey(ref.node, ref.port), [], inputs[ref.name])]), InputSends(f, inputs, i + 1))
  }

  function InputMapSends(f: Flow, inputs: map<string, Value>, j: nat): Option<seq<Delivery>>
    requires j <= |f.mappings|
    decreases |f.mappings| - j
  {
    if j == |f.mappings| then Some([])
    else
      var m := f.mappings[j];
      if m.source.input == "" then InputMapSends(f, inputs, j + 1)
      else if m.source.input !in inputs then None
      else match Select(inputs[m.source.input], m.source.path)
        case Err(_) => None
        case Ok(v) => Both(Some([Delivery(Wiring.Targets(m), m.target.path, v)]), InputMapSends(f, inputs, j + 1))
  }

  function StartSends(f: Flow, inputs: map<string, Value>): Option<seq<Delivery>> {
    Both(InputSends(f, inputs, 0), InputMapSends(f, inputs, 0))
  }

  /** Everything delivered by the inputs and the layers before k, if nodes hold the ports F and A is active. */
  function SendsBefore(e: Engine, A: set<string>, F: Ports, inputs: map<string, Value>, k: nat): Option<seq<Delivery>>
    requires k <= |e.layers|
  {
    if k == 0 then StartSends(e.flow, inputs)
    else Both(SendsBefore(e, A, F, inputs, k - 1), LayerDeliveries(WiresOf(e), A, F, e.layers[k - 1], None))
  }

  /** The view a node of a layer runs with. */
  function View(A: set<string>, base: Ports, cell: Option<Value>): Run {
    Run(Net(A, base, []), cell, [])
  }

  /** The equations. ds is everything delivered; base the ports it builds up from nothing; C[k] the State
      committed when layer k starts. A node is active iff it has no incoming wire or something is delivered
      to it; it runs on exactly the delivered ports; its final ports are the delivered ones overwritten by
      its outputs; State is folded layer by layer; no active node fails. */
  ghost predicate Solution(e: Engine, red: Option<Reducer>, seed: Option<Value>, inputs: map<string, Value>,
                           A: set<string>, F: Ports, C: seq<Option<Value>>)
  {
    var ds := SendsBefore(e, A, F, inputs, |e.layers|);
    && ds.Some? && Apply(map[], ds.value).Some? && |C| == |e.layers| + 1
    && (var base := Apply(map[], ds.value).value;
        && A == Entries(e.flow) + Recipients(ds.value)
        && (forall k, x: PortKey :: In(e.layers, k, x.node) ==> Lookup(F, x) == FinalPort(e, A, base, C[k], x))
        && (forall x: PortKey :: !Layered(e.layers, x.node) ==> Lookup(F, x) == Lookup(base, x))
        && C[0] == seed
        && (forall k :: 0 <= k < |e.layers| ==>
              && !AnyFails(e, View(A, base, C[k]), e.layers[k], false)
              && ReducedCell(C[k], Staged(e, View(A, base, C[k]), e.layers[k]), red) == Ok(C[k + 1])))
  }

  function FinalPort(e: Engine, A: set<string>, base: Ports, cell: Option<Value>, x: PortKey): Option<Value> {
    var out := Emits(e, View(A, base, cell), x);
    if out.Some? then out else Lookup(base, x)
  }

  // ---------------------------------------------------------------- lemmas on deliveries

  lemma {:induction false} InputsDeliver(f: Flow, inputs: map<string, Value>, net: Net, i: nat)
    requires i <= |f.inputs|
    ensures Arrived(InputsFrom(f, inputs, net, i), net, InputSends(f, inputs, i))
    decreases |f.inputs| - i
  {
    if i == |f.inputs| {
      assert net.active + Recipients([]) == net.active;
    } else {
      var ref := f.inputs[i];
      if ref.name in inputs {
        var d := Delivery(PortKey(ref.node, ref.port), [], inputs[ref.name]);
        var next := net.(active := net.active + {ref.node}, ports := net.ports[d.to := d.value]);
        InputsDeliver(f, inputs, next, i + 1);
        assert Put(Lookup(net.ports, d.to), [], d.value) == Ok(d.value);
        OneThenRest(net, d, next, InputSends(f, inputs, i + 1), InputsFrom(f, inputs, next, i + 1));
      }
    }
  }

  /** Reached, for the start of a run. */
  ghost predicate Arrived(r: Result<Net, RunError>, net: Net, ds: Option<seq<Delivery>>) {
    if ds.None? || Apply(net.ports, ds.value).None? then r.Err?
    else r == Ok(Net(net.active + Recipients(ds.value), Apply(net.ports, ds.value).value, net.edges))
  }

  lemma OneThenRest(net: Net, d: Delivery, next: Net, rest: Option<seq<Delivery>>, r: Result<Net, RunError>)
    requires Put(Lookup(net.ports, d.to), d.path, d.value).Ok?
    requires next == Net(net.active + {d.to.node}, net.ports[d.to := Put(Lookup(net.ports, d.to), d.path, d.value).value], net.edges)
    requires Arrived(r, next, rest)
    ensures Arrived(r, net, Both(Some([d]), rest))
  {
    if rest.Some? {
      assert ([d] + rest.value)[1..] == rest.value;
      RecipientsConcat([d], rest.value);
      assert Recipients([d]) == {d.to.node};
      assert net.active + {d.to.node} + Recipients(rest.value) == net.active + Recipients([d] + rest.value);
    }
  }

  lemma {:induction false} InputMappingsDeliver(f: Flow, inputs: map<string, Value>, net: Net, j: nat)
    requires j <= |f.mappings|
    ensures Arrived(InputMappingsFrom(f, inputs, net, j), net, InputMapSends(f, inputs, j))
    decreases |f.mappings| - j
  {
    if j == |f.mappings| {
      assert net.active + Recipients([]) == net.active;
    } else {
      var m := f.mappings[j];
      if m.source.input == "" {
        InputMappingsDeliver(f, inputs, net, j + 1);
      } else if m.source.input in inputs {
        match Select(inputs[m.source.input], m.source.path)
        case Err(_) =>
        case Ok(v) =>
          var d := Delivery(Wiring.Targets(m), m.target.path, v);
          var rest := InputMapSends(f, inputs, j + 1);
          match Assign(net, d.to, d.path, d.value)
          case None =>
            if rest.Some? { assert ([d] + rest.value)[0] == d; }
          case Some(next) =>
            InputMappingsDeliver(f, inputs, next, j + 1);
            OneThenRest(net, d, next, rest, InputMappingsFrom(f, inputs, next, j + 1));
      }
    }
  }

  lemma StartDelivers(f: Flow, inputs: map<string, Value>)
    ensures Arrived(StartNet(f, inputs), Net(Entries(f), map[], seq(|f.edges|, _ => Pending)), StartSends(f, inputs))
  {
    var net := Net(Entries(f), map[], seq(|f.edges|, _ => Pending));
    InputsDeliver(f, inputs, net, 0);
    var a, b := InputSends(f, inputs, 0), InputMapSends(f, inputs, 0);
    match InputsFrom(f, inputs, net, 0)
    case Err(_) =>
      if a.Some? && b.Some? { ApplyConcat(map[], a.value, b.value); }
    case Ok(mid) =>
      InputMappingsDeliver(f, inputs, mid, 0);
      if b.Some? {
        ApplyConcat(map[], a.value, b.value);
        RecipientsConcat(a.value, b.value);
        assert net.active + Recipients(a.value) + Recipients(b.value) == net.active + Recipients(a.value + b.value);
      }
  }

  // ---------------------------------------------------------------- what a run starts with

  /** n is named by a declared input or by an input mapping. */
  ghost predicate GivenInput(f: Flow, n: string) {
    (exists i :: 0 <= i < |f.inputs| && f.inputs[i].node == n) ||
    (exists j :: 0 <= j < |f.mappings| && f.mappings[j].source.input != "" && f.mappings[j].target.node == n)
  }

  lemma {:induction false} InputRecipients(f: Flow, inputs: map<string, Value>, i: nat, n: string)
    requires i <= |f.inputs| && InputSends(f, inputs, i).Some?
    ensures n in Recipients(InputSends(f, inputs, i).value) <==>
            exists j :: i <= j < |f.inputs| && f.inputs[j].node == n
    decreases |f.inputs| - i
  {
    if i < |f.inputs| {
      InputRecipients(f, inputs, i + 1, n);
      var d := Delivery(PortKey(f.inputs[i].node, f.inputs[i].port), [], inputs[f.inputs[i].name]);
      RecipientsConcat([d], InputSends(f, inputs, i + 1).value);
      assert Recipients([d]) == {f.inputs[i].node};
    }
  }

  lemma {:induction false} InputMapRecipients(f: Flow, inputs: map<string, Value>, i: nat, n: string)
    requires i <= |f.mappings| && InputMapSends(f, inputs, i).Some?
    ensures n in Recipients(InputMapSends(f, inputs, i).value) <==>
            exists j :: i <= j < |f.mappings| && f.mappings[j].source.input != "" && f.mappings[j].target.node == n
    decreases |f.mappings| - i
  {
    if i < |f.mappings| {
      InputMapRecipients(f, inputs, i + 1, n);
      var m := f.mappings[i];
      if m.source.input != "" {
        var d := Delivery(Wiring.Targets(m), m.target.path, Select(inputs[m.source.input], m.source.path).value);
        RecipientsConcat([d], InputMapSends(f, inputs, i + 1).value);
        assert Recipients([d]) == {m.target.node};
      }
    }
  }

  /** A run starts with the nodes no wire targets and the nodes an input names, and with no others. */
  lemma StartActive(f: Flow, inputs: map<string, Value>, n: string)
    ensures var r := StartNet(f, inputs);
            r.Ok? ==>
              (n in r.value.active <==>
                || (&& n in Ids(f)
                    && (forall i :: 0 <= i < |f.edges| ==> f.edges[i].target.node != n)
                    && (forall j :: 0 <= j < |f.mappings| ==> f.mappings[j].target.node != n))
                || GivenInput(f, n))
  {
    StartDelivers(f, inputs);
    if StartNet(f, inputs).Ok? {
      InputRecipients(f, inputs, 0, n);
      InputMapRecipients(f, inputs, 0, n);
      RecipientsConcat(InputSends(f, inputs, 0).value, InputMapSends(f, inputs, 0).value);
    }
  }

  /** Every declared input and every source of an input mapping is required. */
  lemma StartNeeds(f: Flow, inputs: map<string, Value>)
    requires StartNet(f, inputs).Ok?
    ensures forall i :: 0 <= i < |f.inputs| ==> f.inputs[i].name in inputs
    ensures forall j :: 0 <= j < |f.mappings| && f.mappings[j].source.input != "" ==>
              f.mappings[j].source.input in inputs && Select(inputs[f.mappings[j].source.input], f.mappings[j].source.path).Ok?
  {
    StartDelivers(f, inputs);
    InputsNeeded(f, inputs, 0);
    MappedInputsNeeded(f, inputs, 0);
  }

  lemma {:induction false} InputsNeeded(f: Flow, inputs: map<string, Value>, i: nat)
    requires i <= |f.inputs| && InputSends(f, inputs, i).Some?
    ensures forall k :: i <= k < |f.inputs| ==> f.inputs[k].name in inputs
    decreases |f.inputs| - i
  {
    if i < |f.inputs| { InputsNeeded(f, inputs, i + 1); }
  }

  lemma {:induction false} MappedInputsNeeded(f: Flow, inputs: map<string, Value>, j: nat)
    requires j <= |f.mappings| && InputMapSends(f, inputs, j).Some?
    ensures forall k :: j <= k < |f.mappings| && f.mappings[k].source.input != "" ==>
              f.mappings[k].source.input in inputs && Select(inputs[f.mappings[k].source.input], f.mappings[k].source.path).Ok?
    decreases |f.mappings| - j
  {
    if j < |f.mappings| { MappedInputsNeeded(f, inputs, j + 1); }
  }

  /** A port starts with the value of the last declared input that names it, unless an input mapping targets it;
      a port that neither names starts unset. */
  lemma StartGives(f: Flow, inputs: map<string, Value>, i: nat, k: PortKey)
    requires StartNet(f, inputs).Ok?
    requires forall j :: 0 <= j < |f.mappings| && f.mappings[j].source.input != "" ==>
               PortKey(f.mappings[j].target.node, f.mappings[j].target.port) != k
    requires forall j :: i < j < |f.inputs| ==> PortKey(f.inputs[j].node, f.inputs[j].port) != k
    requires i < |f.inputs| ==> PortKey(f.inputs[i].node, f.inputs[i].port) == k && f.inputs[i].name in inputs
    requires i >= |f.inputs| ==> forall j :: 0 <= j < |f.inputs| ==> PortKey(f.inputs[j].node, f.inputs[j].port) != k
    ensures Lookup(StartNet(f, inputs).value.ports, k) == if i < |f.inputs| then Some(inputs[f.inputs[i].name]) else None
  {
    var net := Net(Entries(f), map[], seq(|f.edges|, _ => Pending));
    InputsGive(f, inputs, net, 0, i, k);
    MappedInputsSpare(f, inputs, InputsFrom(f, inputs, net, 0).value, 0, k);
  }

  lemma {:induction false} InputsGive(f: Flow, inputs: map<string, Value>, net: Net, at: nat, i: nat, k: PortKey)
    requires at <= |f.inputs| && InputsFrom(f, inputs, net, at).Ok?
    requires forall j :: i < j < |f.inputs| ==> PortKey(f.inputs[j].node, f.inputs[j].port) != k
    requires i < |f.inputs| ==> PortKey(f.inputs[i].node, f.inputs[i].port) == k && f.inputs[i].name in inputs
    requires i >= |f.inputs| ==> forall j :: at <= j < |f.inputs| ==> PortKey(f.inputs[j].node, f.inputs[j].port) != k
    ensures Lookup(InputsFrom(f, inputs, net, at).value.ports, k) ==
            if at <= i < |f.inputs| then Some(inputs[f.inputs[i].name]) else Lookup(net.ports, k)
    decreases |f.inputs| - at
  {
    if at < |f.inputs| {
      var ref := f.inputs[at];
      InputsGive(f, inputs, net.(active := net.active + {ref.node},
                                 ports := net.ports[PortKey(ref.node, ref.port) := inputs[ref.name]]), at + 1, i, k);
    }
  }

  lemma {:induction false} MappedInputsSpare(f: Flow, inputs: map<string, Value>, net: Net, at: nat, k: PortKey)
    requires at <= |f.mappings| && InputMappingsFrom(f, inputs, net, at).Ok?
    requires forall j :: at <= j < |f.mappings| && f.mappings[j].source.input != "" ==> Wiring.Targets(f.mappings[j]) != k
    ensures Lookup(InputMappingsFrom(f, inputs, net, at).value.ports, k) == Lookup(net.ports, k)
    decreases |f.mappings| - at
  {
    if at < |f.mappings| {
      var m := f.mappings[at];
      if m.source.input == "" {
        MappedInputsSpare(f, inputs, net, at + 1, k);
      } else {
        var v := Select(inputs[m.source.input], m.source.path).value;
        MappedInputsSpare(f, inputs, Assign(net, Wiring.Targets(m), m.target.path, v).value, at + 1, k);
      }
    }
  }

  // ---------------------------------------------------------------- which deliveries matter

  lemma {:induction false} ForMissing(ds: seq<Delivery>, k: PortKey)
    requires k.node !in Recipients(ds)
    ensures For(ds, k) == []
  {
    if ds != [] {
      assert ds[0] in ds && forall d :: d in ds[1..] ==> d in ds;
      ForMissing(ds[1..], k);
    }
  }

  /** Deliveries depend only on the ports they are addressed to. */
  lemma ApplyAgrees(p: Ports, q: Ports, ds: seq<Delivery>)
    requires forall k: PortKey :: k.node in Recipients(ds) ==> Lookup(p, k) == Lookup(q, k)
    ensures Apply(p, ds).Some? <==> Apply(q, ds).Some?
    ensures Apply(p, ds).Some? ==> forall k: PortKey ::
              Lookup(Apply(p, ds).value, k) == if k.node in Recipients(ds) then Lookup(Apply(q, ds).value, k) else Lookup(p, k)
  {
    ApplyByPort(p, ds);
    ApplyByPort(q, ds);
    forall k: PortKey ensures k.node in Recipients(ds) ==> Fold(Lookup(p, k), For(ds, k)) == Fold(Lookup(q, k), For(ds, k))
      ensures k.node !in Recipients(ds) ==>
        Fold(Lookup(p, k), For(ds, k)) == Some(Lookup(p, k)) && Fold(Lookup(q, k), For(ds, k)) == Some(Lookup(q, k))
    {
      if k.node !in Recipients(ds) { ForMissing(ds, k); }
    }
  }

  lemma SamePortsOf(p: Ports, q: Ports, n: string)
    requires forall k: PortKey :: k.node == n ==> Lookup(p, k) == Lookup(q, k)
    ensures PortsOf(p, n) == PortsOf(q, n)
  {
    var a, b := PortsOf(p, n), PortsOf(q, n);
    forall x ensures x in a <==> x in b { assert Lookup(p, PortKey(n, x)) == Lookup(q, PortKey(n, x)); }
    forall x | x in a ensures a[x] == b[x] { assert Lookup(p, PortKey(n, x)) == Lookup(q, PortKey(n, x)); }
  }

  lemma LookupsOf(p: Ports, q: Ports, n: string)
    requires PortsOf(p, n) == PortsOf(q, n)
    ensures forall k: PortKey :: k.node == n ==> Lookup(p, k) == Lookup(q, k)
  {
    forall k: PortKey | k.node == n ensures Lookup(p, k) == Lookup(q, k) {
      assert k.port in PortsOf(p, n) <==> k in p;
      assert k.port in PortsOf(q, n) <==> k in q;
    }
  }

  /** Two situations agree on every node of the layers before k. */
  ghost predicate AgreeBefore(e: Engine, A: set<string>, F: Ports, A': set<string>, F': Ports, k: nat) {
    forall j, n :: j < k && In(e.layers, j, n) ==> (n in A <==> n in A') && PortsOf(F, n) == PortsOf(F', n)
  }

  lemma {:induction false} PassDepends(w: Wires, pass: Pass, A: set<string>, F: Ports, A': set<string>, F': Ports,
      layer: seq<string>, held: Option<string>)
    requires forall n :: n in layer ==> (n in A <==> n in A') && PortsOf(F, n) == PortsOf(F', n)
    ensures PassSends(w, pass, A, F, layer, held) == PassSends(w, pass, A', F', layer, held)
  {
    if layer != [] {
      assert layer[0] in layer && forall n :: n in layer[1..] ==> n in layer;
      PassDepends(w, pass, A, F, A', F', layer[1..], held);
    }
  }

  lemma LayerDepends(w: Wires, A: set<string>, F: Ports, A': set<string>, F': Ports, layer: seq<string>,
                     held: Option<string>)
    requires forall n :: n in layer ==> (n in A <==> n in A') && PortsOf(F, n) == PortsOf(F', n)
    ensures LayerDeliveries(w, A, F, layer, held) == LayerDeliveries(w, A', F', layer, held)
  {
    PassDepends(w, EdgePass, A, F, A', F', layer, held);
    PassDepends(w, MapPass, A, F, A', F', layer, held);
  }

  lemma {:induction false} SendsDepend(e: Engine, A: set<string>, F: Ports, A': set<string>, F': Ports,
                                       inputs: map<string, Value>, k: nat)
    requires k <= |e.layers| && AgreeBefore(e, A, F, A', F', k)
    ensures SendsBefore(e, A, F, inputs, k) == SendsBefore(e, A', F', inputs, k)
  {
    if k > 0 {
      SendsDepend(e, A, F, A', F', inputs, k - 1);
      forall n | n in e.layers[k - 1] ensures (n in A <==> n in A') && PortsOf(F, n) == PortsOf(F', n) {
        assert In(e.layers, k - 1, n);
      }
      LayerDepends(WiresOf(e), A, F, A', F', e.layers[k - 1], None);
    }
  }

  /** The deliveries after layer k reach no node of layers up to k. */
  ghost predicate Extends(e: Engine, ds: seq<Delivery>, part: seq<Delivery>, k: nat) {
    exists rest :: ds == part + rest && forall n :: n in UpTo(e, k) ==> n !in Recipients(rest)
  }

  lemma SendsNext(e: Engine, A: set<string>, F: Ports, inputs: map<string, Value>, k: nat)
    requires k < |e.layers|
    ensures SendsBefore(e, A, F, inputs, k + 1) == Both(SendsBefore(e, A, F, inputs, k), LayerDeliveries(WiresOf(e), A, F, e.layers[k], None))
  {
  }

  lemma {:induction false} LaterSends(e: Engine, A: set<string>, F: Ports, inputs: map<string, Value>, k: nat, m: nat)
    requires Compiled(e) && k <= m <= |e.layers| && SendsBefore(e, A, F, inputs, m).Some?
    ensures SendsBefore(e, A, F, inputs, k).Some?
    ensures Extends(e, SendsBefore(e, A, F, inputs, m).value, SendsBefore(e, A, F, inputs, k).value, k)
    decreases m
  {
    var ds := SendsBefore(e, A, F, inputs, m).value;
    if k == m {
      assert ds == ds + [] && Recipients([]) == {};
    } else {
      SendsNext(e, A, F, inputs, m - 1);
      hide LayerDeliveries, SendsBefore, Recipients, WiresOf, Compiled, UpTo, Extends;
      LaterSends(e, A, F, inputs, k, m - 1);
      ExtendsOn(e, A, F, SendsBefore(e, A, F, inputs, m - 1).value, SendsBefore(e, A, F, inputs, k).value, k, m);
    }
  }

  lemma ExtendsOn(e: Engine, A: set<string>, F: Ports, mid: seq<Delivery>, part: seq<Delivery>, k: nat, m: nat)
    requires Compiled(e) && k < m <= |e.layers| && Extends(e, mid, part, k)
    requires LayerDeliveries(WiresOf(e), A, F, e.layers[m - 1], None).Some?
    ensures Extends(e, mid + LayerDeliveries(WiresOf(e), A, F, e.layers[m - 1], None).value, part, k)
  {
    hide LayerDeliveries, Recipients, WiresOf;
    var last := LayerDeliveries(WiresOf(e), A, F, e.layers[m - 1], None).value;
    var rest :| mid == part + rest && forall n :: n in UpTo(e, k) ==> n !in Recipients(rest);
    FrozenFacts(e, m - 1);
    FrozenUntouched(WiresOf(e), A, F, e.layers[m - 1], None, UpTo(e, m - 1));
    RecipientsConcat(rest, last);
    forall n | n in UpTo(e, k) ensures n !in Recipients(rest + last) {
      var j :| j < k + 1 && In(e.layers, j, n);
      UpToHolds(e, m - 1, j, n);
    }
    assert mid + last == part + (rest + last);
  }

  /** Ports of a node of layer k come from the deliveries before k alone. */
  lemma EarlierSendsDecide(e: Engine, ds: seq<Delivery>, part: seq<Delivery>, k: nat, n: string)
    requires Compiled(e) && In(e.layers, k, n) && Extends(e, ds, part, k)
    requires Apply(map[], ds).Some?
    ensures Apply(map[], part).Some?
    ensures PortsOf(Apply(map[], ds).value, n) == PortsOf(Apply(map[], part).value, n)
    ensures n in Recipients(ds) <==> n in Recipients(part)
  {
    var rest :| ds == part + rest && forall n :: n in UpTo(e, k) ==> n !in Recipients(rest);
    UpToHolds(e, k, k, n);
    ApplyConcat(map[], part, rest);
    RecipientsConcat(part, rest);
    ApplyFrame(Apply(map[], part).value, rest, n);
  }
}
