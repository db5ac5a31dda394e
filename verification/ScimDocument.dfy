/**
The patch interpreter as it runs: dictionaries in memory, nested by reference, that the
operations walk and change in place.
*/
module ScimDocument {
  import opened Options
  import opened ScimPatch

  datatype Entry = Leaf(text: string) | Sub(node: Node)

  /** One mutable dictionary of the document. `Repr` is the set of dictionaries it may reach. */
  class Node {
    var fields: map<string, Entry>
    ghost var Repr: set<Node>

    constructor ()
      ensures Valid() && fresh(Repr) && Repr == {this} && fields == map[]
    {
      fields, Repr := map[], {this};
    }

    ghost predicate Valid()
      reads this, Repr
      ensures Valid() ==> this in Repr
      decreases Repr
    {
      && this in Repr
      && (forall k :: k in fields && fields[k].Sub? ==> OwnsChild(fields[k].node))
      && (forall j, k :: j in fields && k in fields && j != k && fields[j].Sub? && fields[k].Sub?
            ==> fields[j].node.Repr !! fields[k].node.Repr)
    }

    ghost predicate OwnsChild(child: Node)
      requires this in Repr
      reads this, Repr
      decreases Repr, 0
    {
      child in Repr && child.Repr <= Repr && this !in child.Repr && child.Valid()
    }

    /** The nested document this dictionary stands for. */
    ghost function View(): map<string, Json>
      requires Valid()
      reads this, Repr
      decreases Repr
    {
      map k | k in fields :: if fields[k].Leaf? then Atom(fields[k].text) else assert OwnsChild(fields[k].node); Object(fields[k].node.View())
    }

    /** The document is known by its keys and what each of them holds. */
    lemma {:induction false} ViewIs(doc: map<string, Json>)
      requires Valid() && doc.Keys == fields.Keys
      requires forall k :: k in fields ==> Loose(fields[k]) && doc[k] == ViewOf(fields[k])
      ensures View() == doc
    {
      assert forall k :: k in fields && fields[k].Sub? ==> OwnsChild(fields[k].node);
    }

    /** Assigns one key; what it held is dropped. */
    method Attach(key: string, value: Entry)
      requires Valid() && Loose(value) && Reach(value) !! Repr
      modifies this
      ensures Valid() && Repr == old(Repr) + Reach(value) && fields == old(fields)[key := value]
      ensures View() == old(View())[key := old(ViewOf(value))]
    {
      assert forall k :: k in fields && fields[k].Sub? ==> OwnsChild(fields[k].node);
      ghost var doc := View()[key := ViewOf(value)];
      fields := fields[key := value];
      Repr := Repr + Reach(value);
      assert forall k :: k in fields && fields[k].Sub? ==> OwnsChild(fields[k].node);
      ViewIs(doc);
    }

    /** Puts an empty dictionary at `key` unless there is a dictionary already. */
    method EnsureChild(key: string)
      requires Valid()
      modifies this
      ensures Valid() && fresh(Repr - old(Repr)) && old(Repr) <= Repr
      ensures key in fields && fields[key].Sub?
      ensures View() == old(View())[key := Object(Inner(old(View()), key))]
    {
      if key !in fields || !fields[key].Sub? {
        var empty := new Node();
        Attach(key, Sub(empty));
      } else {
        assert View() == old(View())[key := old(View())[key]];
      }
    }

    /** Another key that holds a dictionary. */
    predicate Other(k: string, key: string)
      reads this
    {
      k in fields && k != key && fields[k].Sub?
    }

    /** Valid, except that the dictionary at `key` may have grown beyond `Repr`. */
    ghost predicate ValidAround(key: string)
      reads this, Repr
      reads if key in fields && fields[key].Sub? then {fields[key].node} + fields[key].node.Repr else {}
    {
      && this in Repr && key in fields && fields[key].Sub?
      && this !in fields[key].node.Repr && fields[key].node.Valid()
      && (forall k :: Other(k, key) ==> OwnsChild(fields[k].node) && fields[k].node.Repr !! fields[key].node.Repr)
      && (forall j, k :: Other(j, key) && Other(k, key) && j != k ==> fields[j].node.Repr !! fields[k].node.Repr)
    }

    /** Takes what the dictionary at `key` has grown by into `Repr`. */
    ghost method Absorb(key: string)
      requires ValidAround(key)
      modifies this`Repr
      ensures Valid() && Repr == old(Repr) + fields[key].node.Repr
    {
      Repr := Repr + fields[key].node.Repr;
      assert forall k :: k in fields && fields[k].Sub? ==> k == key || Other(k, key);
      assert forall k :: k in fields && fields[k].Sub? ==> OwnsChild(fields[k].node);
    }

    /** After a change below `key` this dictionary stands for `doc`. */
    ghost method Settle(key: string, doc: map<string, Json>)
      requires ValidAround(key) && doc.Keys == fields.Keys
      requires forall k :: k in fields ==> Loose(fields[k]) && doc[k] == ViewOf(fields[k])
      modifies this`Repr
      ensures Valid() && Repr == old(Repr) + fields[key].node.Repr && View() == doc
    {
      Absorb(key);
      ViewIs(doc);
    }

    /** Writes below the dictionary held at `key`, in place. */
    method SetInChild(key: string, rest: Path, value: Entry)
      requires Valid() && Loose(value) && Reach(value) !! Repr
      requires key in fields && fields[key].Sub?
      modifies Repr
      ensures Valid() && fresh(Repr - old(Repr) - old(Reach(value)))
      ensures View() == old(View())[key := Object(ScimPatch.SetPath(old(View())[key].fields, rest, old(ViewOf(value))))]
      decreases |rest|, 2
    {
      var child := fields[key].node;
      assert OwnsChild(child);
      assert forall k :: Other(k, key) ==> OwnsChild(fields[k].node) && fields[k].node.Repr !! child.Repr;
      ghost var doc := View();
      ghost var inner := ScimPatch.SetPath(doc[key].fields, rest, ViewOf(value));
      child.SetPath(rest, value);
      assert forall k :: Other(k, key) ==>
        fields[k].node.Valid() && fields[k].node.Repr == old(fields[k].node.Repr) && fields[k].node.View() == old(fields[k].node.View());
      Settle(key, doc[key := Object(inner)]);
    }

    /** Walks one step down, making a dictionary where there is none. */
    method SetBelow(path: Path, value: Entry)
      requires Valid() && Loose(value) && Reach(value) !! Repr && |path| > 1
      modifies Repr
      ensures Valid() && fresh(Repr - old(Repr) - old(Reach(value)))
      ensures View() == ScimPatch.SetPath(old(View()), path, old(ViewOf(value)))
      decreases |path|, 0
    {
      EnsureChild(path[0]);
      assert Loose(value) && Reach(value) == old(Reach(value)) && ViewOf(value) == old(ViewOf(value));
      SetInChild(path[0], path[1..], value);
    }

    method SetPath(path: Path, value: Entry)
      requires Valid() && Loose(value) && Reach(value) !! Repr
      modifies Repr
      ensures Valid() && fresh(Repr - old(Repr) - old(Reach(value)))
      ensures View() == ScimPatch.SetPath(old(View()), path, old(ViewOf(value)))
      decreases |path|, 1
    {
      if |path| == 1 {
        Attach(path[0], value);
      } else {
        SetBelow(path, value);
      }
    }

    /** Drops one key, if it is there. */
    method Detach(key: string)
      requires Valid()
      modifies this
      ensures Valid() && Repr == old(Repr) && View() == old(View()) - {key}
    {
      assert forall k :: k in fields && fields[k].Sub? ==> OwnsChild(fields[k].node);
      fields := fields - {key};
      assert forall k :: k in fields && fields[k].Sub? ==> OwnsChild(fields[k].node);
    }

    /** Removes below the dictionary held at `key`, in place. */
    method DelInChild(key: string, rest: Path)
      requires Valid()
      requires key in fields && fields[key].Sub?
      modifies Repr
      ensures Valid() && fresh(Repr - old(Repr))
      ensures View() == old(View())[key := Object(ScimPatch.DelPath(old(View())[key].fields, rest))]
      decreases |rest|, 2
    {
      var child := fields[key].node;
      assert OwnsChild(child);
      assert forall k :: Other(k, key) ==> OwnsChild(fields[k].node) && fields[k].node.Repr !! child.Repr;
      ghost var doc := View();
      ghost var inner := ScimPatch.DelPath(doc[key].fields, rest);
      child.DelPath(rest);
      assert forall k :: Other(k, key) ==>
        fields[k].node.Valid() && fields[k].node.Repr == old(fields[k].node.Repr) && fields[k].node.View() == old(fields[k].node.View());
      Settle(key, doc[key := Object(inner)]);
    }

    method DelPath(path: Path)
      requires Valid()
      modifies Repr
      ensures Valid() && fresh(Repr - old(Repr))
      ensures View() == ScimPatch.DelPath(old(View()), path)
      decreases |path|, 1
    {
      if |path| == 1 {
        Detach(path[0]);
      } else if path[0] in fields && fields[path[0]].Sub? {
        DelInChild(path[0], path[1..]);
      }
    }
  }

  ghost predicate Loose(e: Entry)
    reads if e.Sub? then {e.node} + e.node.Repr else {}
  {
    e.Sub? ==> e.node.Valid()
  }

  ghost function Reach(e: Entry): set<Node>
    reads if e.Sub? then {e.node} else {}
  {
    if e.Sub? then e.node.Repr else {}
  }

  ghost function ViewOf(e: Entry): Json
    requires Loose(e)
    reads if e.Sub? then {e.node} + e.node.Repr else {}
  {
    if e.Leaf? then Atom(e.text) else Object(e.node.View())
  }

  // ----- lists of operations -----

  /**
  An operation as the loop performs it; a write without a path is one `Put` for each entry of
  its mapping.
  */
  datatype Edit = Put(path: Path, value: Entry) | Cut(path: Path) | Ignored | Unknown

  predicate Brings(edits: seq<Edit>, i: nat) {
    i < |edits| && edits[i].Put? && edits[i].value.Sub?
  }

  function NodesOf(edits: seq<Edit>): set<Node> {
    set i | 0 <= i < |edits| && Brings(edits, i) :: edits[i].value.node
  }

  /** The dictionaries that the values of the edits may reach. */
  ghost function ReachOf(edits: seq<Edit>): set<Node>
    reads NodesOf(edits)
  {
    set i, n | 0 <= i < |edits| && Brings(edits, i) && n in edits[i].value.node.Repr :: n
  }

  /** Every value is a document of its own, apart from the others and from `doc`. */
  ghost predicate Separate(edits: seq<Edit>, doc: set<Node>)
    reads NodesOf(edits), ReachOf(edits)
  {
    && (forall i :: 0 <= i < |edits| && Brings(edits, i) ==> edits[i].value.node.Valid() && edits[i].value.node.Repr !! doc)
    && (forall i, j :: 0 <= i < j < |edits| && Brings(edits, i) && Brings(edits, j)
          ==> edits[i].value.node.Repr !! edits[j].value.node.Repr)
  }

  ghost function Meaning(edit: Edit): Operation
    requires edit.Put? ==> Loose(edit.value)
    reads if edit.Put? && edit.value.Sub? then {edit.value.node} + edit.value.node.Repr else {}
  {
    match edit
    case Put(path, value) => Write(path, ViewOf(value))
    case Cut(path) => Remove(path)
    case Ignored => NoEffect
    case Unknown => Unsupported
  }

  /**
  The edits from `i` on mean what `ops` says, and their values are still documents of their
  own within `reach`, apart from each other and from `doc`.
  */
  ghost predicate Waiting(edits: seq<Edit>, ops: seq<Operation>, i: nat, doc: set<Node>, reach: set<Node>)
    requires |ops| == |edits|
    reads NodesOf(edits), ReachOf(edits)
  {
    && (forall j :: i <= j < |edits| && Brings(edits, j) ==>
          edits[j].value.node.Valid() && edits[j].value.node.Repr !! doc && edits[j].value.node.Repr <= reach)
    && (forall j, k :: i <= j < k < |edits| && Brings(edits, j) && Brings(edits, k)
          ==> edits[j].value.node.Repr !! edits[k].value.node.Repr)
    && (forall j :: i <= j < |edits| ==> (edits[j].Put? ==> Loose(edits[j].value)) && ops[j] == Meaning(edits[j]))
  }

  /** One write with a value: the values of the later edits are not touched by it. */
  method PutOne(doc: Node, edits: seq<Edit>, i: nat, ghost ops: seq<Operation>, ghost reach: set<Node>)
    requires i < |edits| == |ops| && edits[i].Put? && doc.Valid()
    requires Waiting(edits, ops, i, doc.Repr, reach)
    modifies doc.Repr
    ensures doc.Valid() && fresh(doc.Repr - old(doc.Repr) - reach)
    ensures Waiting(edits, ops, i + 1, doc.Repr, reach)
    ensures Patched(doc.View(), true) == ApplyOne(old(doc.View()), ops[i])
  {
    doc.SetPath(edits[i].path, edits[i].value);
    assert forall j :: i < j < |edits| && Brings(edits, j) ==>
      edits[j].value.node.Valid() && edits[j].value.node.Repr == old(edits[j].value.node.Repr) &&
      edits[j].value.node.View() == old(edits[j].value.node.View());
  }

  method CutOne(doc: Node, edits: seq<Edit>, i: nat, ghost ops: seq<Operation>, ghost reach: set<Node>)
    requires i < |edits| == |ops| && edits[i].Cut? && doc.Valid()
    requires Waiting(edits, ops, i, doc.Repr, reach)
    modifies doc.Repr
    ensures doc.Valid() && fresh(doc.Repr - old(doc.Repr) - reach)
    ensures Waiting(edits, ops, i + 1, doc.Repr, reach)
    ensures Patched(doc.View(), true) == ApplyOne(old(doc.View()), ops[i])
  {
    doc.DelPath(edits[i].path);
    assert forall j :: i < j < |edits| && Brings(edits, j) ==>
      edits[j].value.node.Valid() && edits[j].value.node.Repr == old(edits[j].value.node.Repr) &&
      edits[j].value.node.View() == old(edits[j].value.node.View());
  }

  method ApplyEdit(doc: Node, edits: seq<Edit>, i: nat, ghost ops: seq<Operation>, ghost reach: set<Node>) returns (ok: bool)
    requires i < |edits| == |ops| && doc.Valid()
    requires Waiting(edits, ops, i, doc.Repr, reach)
    modifies doc.Repr
    ensures doc.Valid() && fresh(doc.Repr - old(doc.Repr) - reach)
    ensures Waiting(edits, ops, i + 1, doc.Repr, reach)
    ensures Patched(doc.View(), ok) == ApplyOne(old(doc.View()), ops[i])
  {
    ok := !edits[i].Unknown?;
    if edits[i].Put? {
      PutOne(doc, edits, i, ops, reach);
    } else if edits[i].Cut? {
      CutOne(doc, edits, i, ops, reach);
    }
  }

  lemma {:induction false} AllWaiting(edits: seq<Edit>, ops: seq<Operation>, doc: set<Node>)
    requires Separate(edits, doc)
    requires |ops| == |edits| && forall i :: 0 <= i < |edits| ==> (edits[i].Put? ==> Loose(edits[i].value)) && ops[i] == Meaning(edits[i])
    ensures Waiting(edits, ops, 0, doc, ReachOf(edits))
  {
  }

  /**
  Applies the edits in turn; an unsupported operation stops the list where it is. `ops` says
  what the edits mean before any of them is applied.
  */
  method ApplyPatchOps(doc: Node, edits: seq<Edit>, ghost ops: seq<Operation>) returns (ok: bool)
    requires doc.Valid() && Separate(edits, doc.Repr)
    requires |ops| == |edits| && forall i :: 0 <= i < |edits| ==> (edits[i].Put? ==> Loose(edits[i].value)) && ops[i] == Meaning(edits[i])
    modifies doc.Repr, ReachOf(edits)
    ensures doc.Valid()
    ensures Patched(doc.View(), ok) == Apply(old(doc.View()), ops)
  {
    ghost var reach := ReachOf(edits);
    ghost var start := doc.View();
    AllWaiting(edits, ops, doc.Repr);
    for i := 0 to |edits|
      invariant doc.Valid() && fresh(doc.Repr - old(doc.Repr) - reach)
      invariant Waiting(edits, ops, i, doc.Repr, reach)
      invariant Patched(doc.View(), true) == Apply(start, ops[..i])
    {
      assert ops[..i + 1][..i] == ops[..i];
      ok := ApplyEdit(doc, edits, i, ops, reach);
      if !ok {
        StopsThere(start, ops, i + 1);
        return;
      }
    }
    assert ops[..|edits|] == ops;
    ok := true;
  }
}
