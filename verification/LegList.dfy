/** The linked list of scenario legs. */
module LegList {
  import opened Scenario
  import opened Commands

  class Node {
    var index: int
    var next: Node?
    var ones: Leg

    constructor (ones: Leg)
      ensures this.ones == ones && next == null
    {
      index, next, this.ones := 0, null, ones;
    }
  }

  class LegList {
    var first: Node?
    var counter: nat
    ghost var nodes: seq<Node>
    ghost var legs: seq<Leg>

    /** The node at a place, or null past the end. */
    ghost function NodeAt(i: nat): Node?
      reads this
    {
      if i < |nodes| then nodes[i] else null
    }

    /** The chain from `first` visits the nodes in order, ends, and numbers them from 1, so that no node comes twice. */
    ghost predicate Valid()
      reads this, nodes
    {
      && counter == |nodes| == |legs|
      && first == NodeAt(0)
      && (forall i {:trigger nodes[i].next} :: 0 <= i < |nodes| ==> nodes[i].next == NodeAt(i + 1))
      && (forall i {:trigger nodes[i].index} {:trigger nodes[i].ones} ::
            0 <= i < |nodes| ==> nodes[i].index == i + 1 && nodes[i].ones == legs[i])
    }

    constructor ()
      ensures Valid() && legs == [] && nodes == []
    {
      first, counter, nodes, legs := null, 0, [], [];
    }

    /** The walk of add_ones to the last node. */
    method Tail() returns (tmp: Node)
      requires Valid() && nodes != []
      ensures tmp == nodes[|nodes| - 1] && tmp !in nodes[..|nodes| - 1]
    {
      tmp := first;
      ghost var i := 0;
      while tmp.next != null
        invariant 0 <= i < |nodes| && tmp == nodes[i]
        decreases |nodes| - i
      {
        tmp := tmp.next;
        i := i + 1;
      }
      assert forall k :: 0 <= k < i ==> nodes[k].index != tmp.index;
    }

    /** add_ones: append a leg by walking to the tail; -1 without data. */
    method Add(data: Option<Leg>) returns (ret: int)
      requires Valid()
      modifies this, nodes
      ensures Valid() && fresh(set n | n in nodes && n !in old(nodes))
      ensures legs == (if data.Some? then old(legs) + [data.value] else old(legs))
      ensures ret == if data.Some? then |legs| else -1
    {
      if data.None? { return -1; }
      var rec := new Node(data.value);
      if first == null {
        first := rec;
      } else {
        var tmp := Tail();
        tmp.next := rec;
      }
      counter := counter + 1;
      rec.index := counter;
      nodes, legs := nodes + [rec], legs + [data.value];
      ret := counter;
    }

    /** get_ones: the leg with a number, if there is one. */
    method Get(ind: int) returns (r: Option<Leg>)
      requires Valid()
      ensures r == if 1 <= ind <= |legs| then Some(legs[ind - 1]) else None
    {
      r := None;
      if ind > 0 {
        var rec := first;
        ghost var i := 0;
        while rec != null
          invariant 0 <= i <= |nodes| && rec == NodeAt(i) && i < ind && Valid()
          decreases |nodes| - i
        {
          if rec.index == ind { return Some(rec.ones); }
          rec := rec.next;
          i := i + 1;
        }
      }
    }

    /** del_all_ones: free every node once; the nodes freed are those of the list, in order. */
    method DeleteAll() returns (ghost freed: seq<Node>)
      requires Valid()
      modifies this
      ensures Valid() && legs == [] && counter == 0 && first == null && freed == old(nodes)
    {
      freed := [];
      var rec := first;
      while rec != null
        invariant |freed| <= |nodes| && freed == nodes[..|freed|] && counter == |nodes| - |freed|
        invariant rec == NodeAt(|freed|)
        invariant forall i {:trigger nodes[i].next} :: 0 <= i < |nodes| ==> nodes[i].next == NodeAt(i + 1)
        invariant nodes == old(nodes) && legs == old(legs)
        decreases |nodes| - |freed|
      {
        var del := rec;
        rec := del.next;
        if counter > 0 { counter := counter - 1; }
        freed := freed + [del];
      }
      first, nodes, legs := null, [], [];
    }
  }

  // ----- any interleaving -----

  datatype Op = AddLeg(leg: Leg) | Clear

  /** The legs added since the last delete-all. */
  function Content(ops: seq<Op>): seq<Leg> {
    if ops == [] then []
    else
      var op := ops[|ops| - 1];
      if op.Clear? then [] else Content(ops[..|ops| - 1]) + [op.leg]
  }

  /** After any interleaving of adds and delete-alls the list holds exactly the legs added since the last delete-all. */
  method Replay(ops: seq<Op>) returns (list: LegList)
    ensures list.Valid() && list.legs == Content(ops)
  {
    list := new LegList();
    for i := 0 to |ops|
      invariant fresh(list) && fresh(list.nodes) && list.Valid() && list.legs == Content(ops[..i])
    {
      assert ops[..i + 1][..i] == ops[..i];
      match ops[i] {
        case AddLeg(leg) =>
          var r := list.Add(Some(leg));
        case Clear =>
          ghost var freed := list.DeleteAll();
      }
    }
    assert ops[..|ops|] == ops;
  }

  /** The i-th leg added since the last delete-all is leg number i. */
  lemma {:induction false} ContentAfterAdds(before: seq<Op>, legs: seq<Leg>)
    ensures Content(before + [Clear] + Adds(legs)) == legs
    decreases |legs|
  {
    hide Content, Adds;
    ContentCleared(before);
    var ops := before + [Clear] + Adds(legs);
    if legs == [] {
      assert ops == before + [Clear];
    } else {
      var init, leg := legs[..|legs| - 1], legs[|legs| - 1];
      ContentAfterAdds(before, init);
      AddsSnoc(init, leg);
      assert legs == init + [leg];
      ContentAdd(before + [Clear] + Adds(init), leg);
      assert ops == before + [Clear] + Adds(init) + [AddLeg(leg)];
    }
  }

  lemma ContentCleared(before: seq<Op>)
    ensures Content(before + [Clear]) == [] && Adds([]) == []
  {}

  lemma AddsSnoc(init: seq<Leg>, leg: Leg)
    ensures Adds(init + [leg]) == Adds(init) + [AddLeg(leg)]
  {}

  lemma ContentAdd(ops: seq<Op>, leg: Leg)
    ensures Content(ops + [AddLeg(leg)]) == Content(ops) + [leg]
  {
    assert (ops + [AddLeg(leg)])[..|ops|] == ops;
  }

  function Adds(legs: seq<Leg>): (r: seq<Op>)
    ensures |r| == |legs|
  {
    seq(|legs|, i requires 0 <= i < |legs| => AddLeg(legs[i]))
  }
}
