/**
The SCIM patch interpreter: dotted paths written and removed in a nested document, and
lists of operations applied in turn. Paths are the parts between the dots.
*/
module ScimPatch {
  import opened Options

  datatype Json = Atom(text: string) | Object(fields: map<string, Json>)

  type Path = p: seq<string> | p != [] witness [""]

  // ----- one path -----

  /** The object at a key, or an empty one where there is none. */
  function Inner(fields: map<string, Json>, key: string): map<string, Json> {
    if key in fields && fields[key].Object? then fields[key].fields else map[]
  }

  /** Writes `value` at `path`; anything on the way that is not an object is replaced by one. */
  function SetPath(fields: map<string, Json>, path: Path, value: Json): map<string, Json>
    decreases |path|
  {
    if |path| == 1 then fields[path[0] := value]
    else fields[path[0] := Object(SetPath(Inner(fields, path[0]), path[1..], value))]
  }

  /** Removes `path`, unless something on the way is missing or not an object. */
  function DelPath(fields: map<string, Json>, path: Path): map<string, Json>
    decreases |path|
  {
    if |path| == 1 then fields - {path[0]}
    else if path[0] in fields && fields[path[0]].Object?
    then fields[path[0] := Object(DelPath(fields[path[0]].fields, path[1..]))]
    else fields
  }

  /** What a reader finds at `path`, the whole document at the empty one. */
  function Read(doc: Json, path: seq<string>): Option<Json>
    decreases |path|
  {
    if path == [] then Some(doc)
    else if doc.Object? && path[0] in doc.fields then Read(doc.fields[path[0]], path[1..])
    else None
  }

  function At(fields: map<string, Json>, path: seq<string>): Option<Json> {
    Read(Object(fields), path)
  }

  /** Neither path is a prefix of the other. */
  predicate Apart(p: seq<string>, q: seq<string>) {
    !(p <= q) && !(q <= p)
  }

  lemma {:induction false} ApartTail(p: seq<string>, q: seq<string>)
    requires p != [] && q != [] && p[0] == q[0]
    ensures Apart(p, q) <==> Apart(p[1..], q[1..])
  {
    assert p <= q <==> p[1..] <= q[1..] by {
      if p[1..] <= q[1..] { assert p == [p[0]] + p[1..] && q == [q[0]] + q[1..]; }
    }
    assert q <= p <==> q[1..] <= p[1..] by {
      if q[1..] <= p[1..] { assert p == [p[0]] + p[1..] && q == [q[0]] + q[1..]; }
    }
  }

  lemma {:induction false} AtomHasNothing(doc: Json, path: seq<string>)
    requires doc.Atom? && path != []
    ensures Read(doc, path) == None
  {
  }

  /** After a write, reading at the path or below it reads the value written. */
  lemma {:induction false} ReadWritten(fields: map<string, Json>, path: Path, value: Json, below: seq<string>)
    ensures At(SetPath(fields, path, value), path + below) == Read(value, below)
    decreases |path|
  {
    assert (path + below)[1..] == path[1..] + below;
    if |path| > 1 {
      var inner := Inner(fields, path[0]);
      ReadWritten(inner, path[1..], value, below);
    } else {
      assert path[1..] + below == below;
    }
  }

  /** A write changes nothing at a path apart from it, even when it replaces a scalar on the way. */
  lemma {:induction false} WriteElsewhere(fields: map<string, Json>, path: Path, value: Json, other: seq<string>)
    requires Apart(path, other)
    ensures At(SetPath(fields, path, value), other) == At(fields, other)
    decreases |path|
  {
    if path[0] == other[0] {
      ApartTail(path, other);
      var inner := Inner(fields, path[0]);
      WriteElsewhere(inner, path[1..], value, other[1..]);
      if path[0] in fields && fields[path[0]].Atom? { AtomHasNothing(fields[path[0]], other[1..]); }
      assert At(map[], other[1..]) == None;
    }
  }

  /** A removal leaves nothing at the path, nor below it. */
  lemma {:induction false} ReadRemoved(fields: map<string, Json>, path: Path, below: seq<string>)
    ensures At(DelPath(fields, path), path + below) == None
    decreases |path|
  {
    assert (path + below)[1..] == path[1..] + below;
    if |path| > 1 && path[0] in fields && fields[path[0]].Atom? {
      AtomHasNothing(fields[path[0]], path[1..] + below);
    }
    if |path| > 1 && path[0] in fields && fields[path[0]].Object? {
      ReadRemoved(fields[path[0]].fields, path[1..], below);
    }
  }

  /** A removal changes nothing at a path apart from it. */
  lemma {:induction false} RemoveElsewhere(fields: map<string, Json>, path: Path, other: seq<string>)
    requires Apart(path, other)
    ensures At(DelPath(fields, path), other) == At(fields, other)
    decreases |path|
  {
    if path[0] == other[0] && |path| > 1 && path[0] in fields && fields[path[0]].Object? {
      ApartTail(path, other);
      RemoveElsewhere(fields[path[0]].fields, path[1..], other[1..]);
    }
  }

  /** A removal above which every part is an object takes back a write that added a new name. */
  lemma {:induction false} RemoveUndoesWrite(fields: map<string, Json>, path: Path, value: Json)
    requires forall n :: 0 < n < |path| ==> At(fields, path[..n]).Some? && At(fields, path[..n]).value.Object?
    requires At(fields, path) == None
    ensures DelPath(SetPath(fields, path, value), path) == fields
    decreases |path|
  {
    if |path| == 1 {
      assert path[1..] == [];
      assert path[0] in fields ==> Read(fields[path[0]], path[1..]).Some?;
      assert fields[path[0] := value] - {path[0]} == fields;
    } else {
      assert At(fields, path[..1]).Some? && path[..1][1..] == [] && path[..1][0] == path[0];
      assert path[0] in fields ==> Read(fields[path[0]], path[..1][1..]) == Some(fields[path[0]]);
      assert path[0] in fields && fields[path[0]].Object?;
      var inner := fields[path[0]].fields;
      forall n | 0 < n < |path[1..]| ensures At(inner, path[1..][..n]) == At(fields, path[..n + 1]) {
        assert path[..n + 1][1..] == path[1..][..n];
      }
      RemoveUndoesWrite(inner, path[1..], value);
    }
  }

  /** Everything above a written path is an object afterwards. */
  lemma {:induction false} WriteAbove(fields: map<string, Json>, path: Path, value: Json, n: nat)
    requires n < |path|
    ensures At(SetPath(fields, path, value), path[..n]).Some? && At(SetPath(fields, path, value), path[..n]).value.Object?
    decreases |path|
  {
    if n > 0 {
      assert path[..n][1..] == path[1..][..n - 1];
      WriteAbove(Inner(fields, path[0]), path[1..], value, n - 1);
    }
  }

  /** Main result: a removal changes nothing exactly when there is nothing at the path: a part is missing or a scalar. */
  lemma {:induction false} RemoveMissing(fields: map<string, Json>, path: Path)
    ensures DelPath(fields, path) == fields <==> At(fields, path) == None
    decreases |path|
  {
    if |path| == 1 {
      assert path[1..] == [];
      assert path[0] in fields ==> Read(fields[path[0]], path[1..]) == Some(fields[path[0]]);
      assert DelPath(fields, path) == fields - {path[0]};
    } else if path[0] in fields {
      var child := fields[path[0]];
      if child.Object? {
        RemoveMissing(child.fields, path[1..]);
        assert DelPath(fields, path) == fields[path[0] := Object(DelPath(child.fields, path[1..]))];
        assert DelPath(fields, path) == fields <==> DelPath(child.fields, path[1..]) == child.fields;
      } else {
        AtomHasNothing(child, path[1..]);
      }
    }
  }

  /** What is above a removed path stays: an object an object, a scalar the same scalar, and nothing nothing. */
  lemma {:induction false} RemoveAbove(fields: map<string, Json>, path: Path, n: nat)
    requires n < |path|
    ensures var was, now := At(fields, path[..n]), At(DelPath(fields, path), path[..n]);
            && (was.Some? && was.value.Object? <==> now.Some? && now.value.Object?)
            && (!(was.Some? && was.value.Object?) ==> now == was)
    decreases |path|
  {
    if n > 0 && path[0] in fields {
      assert path[..n][1..] == path[1..][..n - 1];
      if fields[path[0]].Object? {
        RemoveAbove(fields[path[0]].fields, path[1..], n - 1);
      }
    }
  }

  // ----- operations -----

  /** Add and replace carry one path, or without a path a list of them in the order of the mapping. */
  datatype Operation =
    | Write(path: Path, value: Json)
    | Merge(entries: seq<(Path, Json)>)
    | Remove(path: Path)
    | NoEffect              // a merge of something that is no mapping, or a removal without a path
    | Unsupported

  /** The document so far, and whether an unsupported operation stopped the list. */
  datatype Patched = Patched(fields: map<string, Json>, ok: bool)

  function MergeAll(fields: map<string, Json>, entries: seq<(Path, Json)>): map<string, Json> {
    if entries == [] then fields
    else SetPath(MergeAll(fields, entries[..|entries| - 1]), entries[|entries| - 1].0, entries[|entries| - 1].1)
  }

  function ApplyOne(fields: map<string, Json>, op: Operation): Patched {
    match op
    case Write(path, value) => Patched(SetPath(fields, path, value), true)
    case Merge(entries) => Patched(MergeAll(fields, entries), true)
    case Remove(path) => Patched(DelPath(fields, path), true)
    case NoEffect => Patched(fields, true)
    case Unsupported => Patched(fields, false)
  }

  function Apply(fields: map<string, Json>, ops: seq<Operation>): Patched {
    if ops == [] then Patched(fields, true)
    else
      var before := Apply(fields, ops[..|ops| - 1]);
      if before.ok then ApplyOne(before.fields, ops[|ops| - 1]) else before
  }

  /** The operation touches no path that is a prefix or an extension of `path`. */
  predicate Avoids(op: Operation, path: seq<string>) {
    match op
    case Write(p, _) => Apart(p, path)
    case Merge(entries) => forall i :: 0 <= i < |entries| ==> Apart(entries[i].0, path)
    case Remove(p) => Apart(p, path)
    case _ => true
  }

  lemma {:induction false} MergeElsewhere(fields: map<string, Json>, entries: seq<(Path, Json)>, path: seq<string>)
    requires forall i :: 0 <= i < |entries| ==> Apart(entries[i].0, path)
    ensures At(MergeAll(fields, entries), path) == At(fields, path)
  {
    if entries != [] {
      MergeElsewhere(fields, entries[..|entries| - 1], path);
      WriteElsewhere(MergeAll(fields, entries[..|entries| - 1]), entries[|entries| - 1].0, entries[|entries| - 1].1, path);
    }
  }

  /** Main result: a list of operations leaves alone every path that none of them touches. */
  lemma {:induction false} PatchElsewhere(fields: map<string, Json>, ops: seq<Operation>, path: seq<string>)
    requires forall i :: 0 <= i < |ops| ==> Avoids(ops[i], path)
    ensures At(Apply(fields, ops).fields, path) == At(fields, path)
  {
    if ops != [] {
      var front, last := ops[..|ops| - 1], ops[|ops| - 1];
      PatchElsewhere(fields, front, path);
      var before := Apply(fields, front);
      match last
      case Write(p, value) => WriteElsewhere(before.fields, p, value, path);
      case Merge(entries) => MergeElsewhere(before.fields, entries, path);
      case Remove(p) => RemoveElsewhere(before.fields, p, path);
      case _ =>
    }
  }

  lemma {:induction false} ApplyConcat(fields: map<string, Json>, a: seq<Operation>, b: seq<Operation>)
    requires Apply(fields, a).ok
    ensures Apply(fields, a + b) == Apply(Apply(fields, a).fields, b)
  {
    if b == [] {
      assert a + b == a;
    } else {
      ApplyConcat(fields, a, b[..|b| - 1]);
      assert (a + b)[..|a + b| - 1] == a + b[..|b| - 1];
    }
  }

  function AsWrites(entries: seq<(Path, Json)>): (ops: seq<Operation>)
    ensures |ops| == |entries|
  {
    seq(|entries|, i requires 0 <= i < |entries| => Write(entries[i].0, entries[i].1))
  }

  /** A merge is its entries written one after the other. */
  lemma {:induction false} MergeIsWrites(fields: map<string, Json>, entries: seq<(Path, Json)>)
    ensures Apply(fields, [Merge(entries)]) == Apply(fields, AsWrites(entries))
  {
    assert [Merge(entries)][..0] == [];
    if entries != [] {
      var front := entries[..|entries| - 1];
      MergeIsWrites(fields, front);
      assert [Merge(front)][..0] == [];
      assert AsWrites(entries)[..|front|] == AsWrites(front);
    }
  }

  /** Entry `k` is the last of a merge to touch `path`. */
  predicate LastEntry(entries: seq<(Path, Json)>, k: nat, path: seq<string>) {
    k < |entries| && forall j :: k < j < |entries| ==> Apart(entries[j].0, path)
  }

  /** The operation puts something at `p`, or nothing, so that `found` is read `below` it. */
  predicate Decides(op: Operation, p: Path, below: seq<string>, found: Option<Json>) {
    match op
    case Write(q, value) => q == p && found == Read(value, below)
    case Remove(q) => q == p && found == None
    case Merge(entries) =>
      exists k :: 0 <= k < |entries| && entries[k].0 == p && found == Read(entries[k].1, below) && LastEntry(entries, k, p + below)
    case _ => false
  }

  lemma {:induction false} MergeDecides(fields: map<string, Json>, entries: seq<(Path, Json)>, k: nat, below: seq<string>)
    requires k < |entries| && LastEntry(entries, k, entries[k].0 + below)
    ensures At(MergeAll(fields, entries), entries[k].0 + below) == Read(entries[k].1, below)
  {
    var front, last := entries[..|entries| - 1], entries[|entries| - 1];
    if k == |entries| - 1 {
      ReadWritten(MergeAll(fields, front), last.0, last.1, below);
    } else {
      MergeDecides(fields, front, k, below);
      WriteElsewhere(MergeAll(fields, front), last.0, last.1, entries[k].0 + below);
    }
  }

  lemma {:induction false} OneDecides(fields: map<string, Json>, op: Operation, p: Path, below: seq<string>, found: Option<Json>)
    requires Decides(op, p, below, found)
    ensures ApplyOne(fields, op).ok && At(ApplyOne(fields, op).fields, p + below) == found
  {
    match op
    case Write(_, value) => ReadWritten(fields, p, value, below);
    case Remove(_) => ReadRemoved(fields, p, below);
    case Merge(entries) =>
      var k :| 0 <= k < |entries| && entries[k].0 == p && found == Read(entries[k].1, below) && LastEntry(entries, k, p + below);
      MergeDecides(fields, entries, k, below);
  }

  /**
  Main result: of the writes, merges and removals in a list, the last that touches a path
  decides what is read there, if it is made at the path or above it.
  */
  lemma {:induction false} LastWriteWins(fields: map<string, Json>, before: seq<Operation>, op: Operation, later: seq<Operation>,
                                         p: Path, below: seq<string>, found: Option<Json>)
    requires Apply(fields, before).ok && Decides(op, p, below, found)
    requires forall i :: 0 <= i < |later| ==> Avoids(later[i], p + below)
    ensures At(Apply(fields, before + [op] + later).fields, p + below) == found
  {
    assert [op][..0] == [];
    ApplyConcat(fields, before, [op]);
    OneDecides(Apply(fields, before).fields, op, p, below, found);
    ApplyConcat(fields, before + [op], later);
    PatchElsewhere(Apply(fields, before + [op]).fields, later, p + below);
  }

  /** Once an unsupported operation has stopped the list, the rest changes nothing. */
  lemma {:induction false} StopsThere(fields: map<string, Json>, ops: seq<Operation>, n: nat)
    requires n <= |ops| && !Apply(fields, ops[..n]).ok
    ensures Apply(fields, ops) == Apply(fields, ops[..n])
  {
    if n == |ops| {
      assert ops[..n] == ops;
    } else {
      assert ops[..|ops| - 1][..n] == ops[..n];
      StopsThere(fields, ops[..|ops| - 1], n);
    }
  }

  /** An unsupported operation is an error, but everything before it has been applied by then. */
  lemma {:induction false} UnsupportedStops(fields: map<string, Json>, before: seq<Operation>, later: seq<Operation>)
    requires Apply(fields, before).ok
    ensures Apply(fields, before + [Unsupported] + later) == Patched(Apply(fields, before).fields, false)
  {
    assert [Unsupported][..0] == [];
    ApplyConcat(fields, before, [Unsupported]);
    var ops := before + [Unsupported] + later;
    assert ops[..|before| + 1] == before + [Unsupported];
    StopsThere(fields, ops, |before| + 1);
  }
}
