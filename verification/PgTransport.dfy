/** Sending a checkpoint over tagged messages and receiving it into existing storage. */
module PgTransport {

  import opened Protocol

  type Path = string
  type Bytes = seq<bv8>

  /** Shape, type, offset and stride of a tensor over its storage. */
  datatype View = View(shape: seq<nat>, dtype: string, storageOffset: nat, stride: seq<int>)

  datatype Leaf =
    | Plain(value: string)
    | Dense(storage: Bytes, view: View)
    | Sharded(storage: Bytes, view: View, spec: string)

  datatype LeafMeta =
    | PlainMeta(value: string)
    | DenseMeta(view: View, nbytes: nat)
    | ShardedMeta(view: View, nbytes: nat, spec: string)

  datatype Entry = Entry(path: Path, leaf: Leaf)

  datatype Meta = Meta(step: int, treespec: string, paths: seq<Path>, leaves: seq<LeafMeta>)

  /** Serialization of the metadata: any pair of functions that invert one another. */
  datatype Pickler = Pickler(dumps: Meta -> Bytes, loads: Bytes -> Meta)

  ghost predicate Inverse(p: Pickler) {
    forall m :: p.loads(p.dumps(m)) == m && p.dumps(m) != []
  }

  predicate IsTensor(leaf: Leaf) {
    leaf.Dense? || leaf.Sharded?
  }

  function MetaOf(leaf: Leaf): LeafMeta {
    match leaf
    case Plain(value) => PlainMeta(value)
    case Dense(storage, view) => DenseMeta(view, |storage|)
    case Sharded(storage, view, spec) => ShardedMeta(view, |storage|, spec)
  }

  function Paths(entries: seq<Entry>): (r: seq<Path>)
    ensures |r| == |entries|
  {
    seq(|entries|, k requires 0 <= k < |entries| => entries[k].path)
  }

  function Metas(entries: seq<Entry>): (r: seq<LeafMeta>)
    ensures |r| == |entries|
  {
    seq(|entries|, k requires 0 <= k < |entries| => MetaOf(entries[k].leaf))
  }

  /** The storages of the tensor leaves, in order. */
  function Storages(entries: seq<Entry>): seq<Bytes> {
    if entries == [] then [] else
      var last := entries[|entries| - 1].leaf;
      Storages(entries[..|entries| - 1]) + (if IsTensor(last) then [last.storage] else [])
  }

  /** The running tensor index at leaf `k` is the number of tensors before it, and finds its storage. */
  lemma {:induction false} IndexIsAligned(entries: seq<Entry>, k: nat)
    requires k < |entries|
    ensures Storages(entries[..k + 1])
            == Storages(entries[..k]) + (if IsTensor(entries[k].leaf) then [entries[k].leaf.storage] else [])
    ensures IsTensor(entries[k].leaf) ==>
              && |Storages(entries[..k])| < |Storages(entries)|
              && Storages(entries)[|Storages(entries[..k])|] == entries[k].leaf.storage
  {
    assert entries[..k + 1][..k] == entries[..k];
    StoragesGrow(entries, k + 1);
  }

  lemma NothingBefore(entries: seq<Entry>)
    ensures Storages(entries[..0]) == []
  {
  }

  lemma {:induction false} StoragesGrow(entries: seq<Entry>, k: nat)
    requires k <= |entries|
    ensures Storages(entries[..k]) <= Storages(entries)
  {
    if k < |entries| {
      StoragesGrow(entries[..|entries| - 1], k);
      assert entries[..|entries| - 1][..k] == entries[..k];
    } else {
      assert entries[..k] == entries;
    }
  }

  // ----- The messages

  datatype Message = Length(n: nat) | Data(bytes: Bytes)

  /** What is on its way from the sender to each destination, by tag. */
  type Mail = map<(nat, nat), Message>

  const LengthTag: nat := 1
  const MetaTag: nat := 2
  const FirstTensorTag: nat := 3

  method PrepareStateDict(entries: seq<Entry>, treespec: string, step: int) returns (meta: Meta, tensors: seq<Bytes>)
    ensures meta == Meta(step, treespec, Paths(entries), Metas(entries))
    ensures tensors == Storages(entries)
  {
    var paths: seq<Path>, leaves: seq<LeafMeta> := [], [];
    tensors := [];
    for k := 0 to |entries|
      invariant paths == Paths(entries[..k]) && leaves == Metas(entries[..k]) && tensors == Storages(entries[..k])
    {
      IndexIsAligned(entries, k);
      assert Paths(entries[..k + 1]) == Paths(entries[..k]) + [entries[k].path];
      assert Metas(entries[..k + 1]) == Metas(entries[..k]) + [MetaOf(entries[k].leaf)];
      var v := entries[k].leaf;
      paths := paths + [entries[k].path];
      match v {
        case Sharded(storage, view, spec) =>
          tensors := tensors + [storage];
          leaves := leaves + [ShardedMeta(view, |storage|, spec)];
        case Dense(storage, view) =>
          tensors := tensors + [storage];
          leaves := leaves + [DenseMeta(view, |storage|)];
        case Plain(value) =>
          leaves := leaves + [PlainMeta(value)];
      }
    }
    assert entries[..|entries|] == entries;
    meta := Meta(step, treespec, paths, leaves);
  }

  /** Everything one destination is sent. */
  ghost predicate Delivered(mail: Mail, dst: nat, pickler: Pickler, meta: Meta, tensors: seq<Bytes>) {
    && (dst, LengthTag) in mail && mail[(dst, LengthTag)] == Length(|pickler.dumps(meta)|)
    && (dst, MetaTag) in mail && mail[(dst, MetaTag)] == Data(pickler.dumps(meta))
    && forall i :: 0 <= i < |tensors| ==> HasTensor(mail, dst, tensors, i)
  }

  predicate HasTensor(mail: Mail, dst: nat, tensors: seq<Bytes>, i: nat)
    requires i < |tensors|
  {
    (dst, FirstTensorTag + i) in mail && mail[(dst, FirstTensorTag + i)] == Data(tensors[i])
  }

  method SendCheckpoint(dstRanks: seq<nat>, step: int, entries: seq<Entry>, treespec: string, pickler: Pickler)
    returns (mail: Mail)
    ensures forall d :: 0 <= d < |dstRanks| ==>
              Delivered(mail, dstRanks[d], pickler, Meta(step, treespec, Paths(entries), Metas(entries)),
                        Storages(entries))
    ensures forall dst, tag :: (dst, tag) in mail ==> dst in dstRanks
  {
    var meta, tensors := PrepareStateDict(entries, treespec, step);
    var buf := pickler.dumps(meta);
    mail := map[];
    for d := 0 to |dstRanks|
      invariant forall e :: 0 <= e < d ==> Delivered(mail, dstRanks[e], pickler, meta, [])
      invariant forall dst, tag :: (dst, tag) in mail ==> dst in dstRanks
    {
      mail := mail[(dstRanks[d], LengthTag) := Length(|buf|)][(dstRanks[d], MetaTag) := Data(buf)];
    }
    for i := 0 to |tensors|
      invariant forall e :: 0 <= e < |dstRanks| ==> Delivered(mail, dstRanks[e], pickler, meta, tensors[..i])
      invariant forall dst, tag :: (dst, tag) in mail ==> dst in dstRanks
    {
      ghost var before := mail;
      for d := 0 to |dstRanks|
        invariant forall e :: 0 <= e < |dstRanks| ==> Delivered(mail, dstRanks[e], pickler, meta, tensors[..i])
        invariant forall e :: 0 <= e < d ==> HasTensor(mail, dstRanks[e], tensors, i)
        invariant forall dst, tag :: (dst, tag) in mail ==> dst in dstRanks
      {
        var sent := mail[(dstRanks[d], FirstTensorTag + i) := Data(tensors[i])];
        SendKeepsOthers(mail, sent, dstRanks[d], pickler, meta, tensors, i);
        mail := sent;
      }
      forall e | 0 <= e < |dstRanks|
        ensures Delivered(mail, dstRanks[e], pickler, meta, tensors[..i + 1])
      {
        assert HasTensor(mail, dstRanks[e], tensors, i);
        OneMoreDelivered(mail, dstRanks[e], pickler, meta, tensors, i);
      }
    }
    assert tensors[..|tensors|] == tensors;
  }

  lemma SendKeepsOthers(mail: Mail, sent: Mail, dst: nat, pickler: Pickler, meta: Meta, tensors: seq<Bytes>, i: nat)
    requires i < |tensors| && sent == mail[(dst, FirstTensorTag + i) := Data(tensors[i])]
    ensures forall e :: Delivered(mail, e, pickler, meta, tensors[..i]) ==>
                          Delivered(sent, e, pickler, meta, tensors[..i])
    ensures forall e :: HasTensor(mail, e, tensors, i) ==> HasTensor(sent, e, tensors, i)
    ensures HasTensor(sent, dst, tensors, i)
  {
    forall e | Delivered(mail, e, pickler, meta, tensors[..i])
      ensures Delivered(sent, e, pickler, meta, tensors[..i])
    {
      forall j | 0 <= j < i
        ensures HasTensor(sent, e, tensors[..i], j)
      {
        assert HasTensor(mail, e, tensors[..i], j);
      }
    }
  }

  lemma OneMoreDelivered(mail: Mail, dst: nat, pickler: Pickler, meta: Meta, tensors: seq<Bytes>, i: nat)
    requires i < |tensors| && Delivered(mail, dst, pickler, meta, tensors[..i]) && HasTensor(mail, dst, tensors, i)
    ensures Delivered(mail, dst, pickler, meta, tensors[..i + 1])
  {
    var more := tensors[..i + 1];
    forall j | 0 <= j < |more|
      ensures HasTensor(mail, dst, more, j)
    {
      assert j < i ==> HasTensor(mail, dst, tensors[..i], j);
    }
  }

  // ----- Receiving

  /** A tensor's storage, which is overwritten in place. */
  class Storage {
    var bytes: Bytes

    constructor (bytes: Bytes)
      ensures this.bytes == bytes
    {
      this.bytes := bytes;
    }
  }

  /** What the receiver already has at a path: a tensor on the right device, or something it cannot receive into. */
  datatype Existing = InPlace(storage: Storage) | Unusable

  datatype Value = PlainValue(value: string) | DenseValue(storage: Storage, view: View)
                 | ShardedValue(storage: Storage, view: View, spec: string)

  function Decoded(v: Value): Leaf
    reads if v.PlainValue? then {} else {v.storage}
  {
    match v
    case PlainValue(value) => Plain(value)
    case DenseValue(storage, view) => Dense(storage.bytes, view)
    case ShardedValue(storage, view, spec) => Sharded(storage.bytes, view, spec)
  }

  datatype Checkpoint = Checkpoint(values: seq<Value>, treespec: string) | WrongStep | WrongSize

  ghost function Targets(existing: map<Path, Existing>): set<Storage> {
    set path | path in existing && existing[path].InPlace? :: existing[path].storage
  }

  predicate HasTarget(existing: map<Path, Existing>, path: Path) {
    path in existing && existing[path].InPlace?
  }

  /** Where two of the receiver's paths share storage, as tied weights do, the sender's leaves have equal bytes. */
  ghost predicate TiedAlike(existing: map<Path, Existing>, entries: seq<Entry>) {
    forall j, k :: 0 <= j < k < |entries| && Tied(existing, entries[j], entries[k]) ==>
                     entries[j].leaf.storage == entries[k].leaf.storage
  }

  predicate Tied(existing: map<Path, Existing>, e: Entry, f: Entry) {
    && IsTensor(e.leaf) && IsTensor(f.leaf) && HasTarget(existing, e.path) && HasTarget(existing, f.path)
    && existing[e.path].storage == existing[f.path].storage
  }

  /** A tensor can be received at its path: there is no storage there, or one of the same size. */
  ghost predicate SizeFits(existing: map<Path, Existing>, e: Entry)
    reads if HasTarget(existing, e.path) then {existing[e.path].storage} else {}
  {
    IsTensor(e.leaf) && HasTarget(existing, e.path) ==> |existing[e.path].storage.bytes| == |e.leaf.storage|
  }

  /** A leaf arrived: it has the sender's content, in the storage that was at its path if there was one. */
  ghost predicate Arrived(existing: map<Path, Existing>, e: Entry, v: Value)
    reads if v.PlainValue? then {} else {v.storage}
  {
    && Decoded(v) == e.leaf
    && (!v.PlainValue? && HasTarget(existing, e.path) ==> v.storage == existing[e.path].storage)
  }

  method RecvTensor(existing: map<Path, Existing>, path: Path, nbytes: nat, mail: Mail, me: nat, i: nat,
                    ghost content: Bytes)
    returns (storage: Storage, ok: bool)
    requires |content| == nbytes
    requires (me, FirstTensorTag + i) in mail && mail[(me, FirstTensorTag + i)] == Data(content)
    modifies if HasTarget(existing, path) then {existing[path].storage} else {}
    ensures ok <==> (HasTarget(existing, path) ==> old(|existing[path].storage.bytes|) == nbytes)
    ensures ok ==> storage.bytes == content
    ensures !ok ==> HasTarget(existing, path) && storage.bytes == old(existing[path].storage.bytes)
    ensures if HasTarget(existing, path) then storage == existing[path].storage else fresh(storage)
  {
    ok := true;
    if path in existing && existing[path].InPlace? {
      storage := existing[path].storage;
      if |storage.bytes| != nbytes {
        return storage, false;
      }
    } else {
      storage := new Storage(seq(nbytes, _ => 0));
    }
    storage.bytes := mail[(me, FirstTensorTag + i)].bytes;
  }

  /** The leaves of `es` have arrived as `vs`; what was not received in place is new. */
  ghost predicate AllArrived(existing: map<Path, Existing>, es: seq<Entry>, vs: seq<Value>)
    reads set k | 0 <= k < |vs| && !vs[k].PlainValue? :: vs[k].storage
  {
    && |vs| == |es|
    && forall k :: 0 <= k < |es| ==>
         && Arrived(existing, es[k], vs[k])
         && (!vs[k].PlainValue? && !HasTarget(existing, es[k].path) ==> vs[k].storage !in Targets(existing))
  }

  /** The storages are the ones at the paths, where there are any. */
  ghost predicate AllPlaced(existing: map<Path, Existing>, es: seq<Entry>, vs: seq<Value>) {
    && |vs| == |es|
    && forall k :: 0 <= k < |es| ==>
         && (IsTensor(es[k].leaf) <==> !vs[k].PlainValue?)
         && (!vs[k].PlainValue? && HasTarget(existing, es[k].path) ==> vs[k].storage == existing[es[k].path].storage)
  }

  /** Leaves that all arrived, and share storage, have equal bytes: there is only one content to decode. */
  lemma ArrivedMeansTiedAlike(existing: map<Path, Existing>, es: seq<Entry>, vs: seq<Value>)
    requires AllArrived(existing, es, vs)
    ensures TiedAlike(existing, es)
  {
    forall j, k | 0 <= j < k < |es| && Tied(existing, es[j], es[k])
      ensures es[j].leaf.storage == es[k].leaf.storage
    {
      assert Arrived(existing, es[j], vs[j]) && Arrived(existing, es[k], vs[k]);
    }
  }

  /** One tensor leaf after others: `es` have arrived as `vs`. */
  method RecvNext(existing: map<Path, Existing>, nbytes: nat, mail: Mail, me: nat, i: nat, ghost e: Entry, path: Path,
                  ghost es: seq<Entry>, ghost vs: seq<Value>)
    returns (storage: Storage, ok: bool)
    requires IsTensor(e.leaf) && nbytes == |e.leaf.storage| && path == e.path
    requires (me, FirstTensorTag + i) in mail && mail[(me, FirstTensorTag + i)] == Data(e.leaf.storage)
    modifies if HasTarget(existing, path) then {existing[path].storage} else {}
    ensures ok <==> old(SizeFits(existing, e))
    ensures ok ==> storage.bytes == e.leaf.storage
    ensures ok && old(AllArrived(existing, es, vs)) && TiedAlike(existing, es + [e]) ==> AllArrived(existing, es, vs)
    ensures if HasTarget(existing, path) then storage == existing[path].storage else fresh(storage)
    ensures HasTarget(existing, path) ==> |storage.bytes| == old(|existing[path].storage.bytes|)
  {
    storage, ok := RecvTensor(existing, path, nbytes, mail, me, i, e.leaf.storage);
    if ok && HasTarget(existing, path) && old(AllArrived(existing, es, vs)) && TiedAlike(existing, es + [e]) {
      forall k | 0 <= k < |es|
        ensures Arrived(existing, es[k], vs[k])
      {
        assert (es + [e])[k] == es[k] && (es + [e])[|es|] == e;
        assert storage in Targets(existing);
        assert !vs[k].PlainValue? && vs[k].storage == storage ==> Tied(existing, es[k], e);
      }
    }
  }

  /** One leaf; `i` counts the tensors received so far. */
  method RecvLeaf(existing: map<Path, Existing>, path: Path, meta: LeafMeta, mail: Mail, me: nat, i: nat,
                  ghost e: Entry, ghost es: seq<Entry>, ghost vs: seq<Value>)
    returns (v: Value, next: nat, ok: bool)
    requires path == e.path && meta == MetaOf(e.leaf)
    requires IsTensor(e.leaf) ==>
               (me, FirstTensorTag + i) in mail && mail[(me, FirstTensorTag + i)] == Data(e.leaf.storage)
    requires AllPlaced(existing, es, vs)
    modifies if HasTarget(existing, path) then {existing[path].storage} else {}
    ensures ok <==> old(SizeFits(existing, e))
    ensures ok ==> AllPlaced(existing, es + [e], vs + [v])
    ensures ok && old(AllArrived(existing, es, vs)) && TiedAlike(existing, es + [e]) ==>
              AllArrived(existing, es + [e], vs + [v])
    ensures ok ==> next == i + (if IsTensor(e.leaf) then 1 else 0)
    ensures HasTarget(existing, path) ==> |existing[path].storage.bytes| == old(|existing[path].storage.bytes|)
  {
    match meta {
      case DenseMeta(view, nbytes) =>
        var storage, fits := RecvNext(existing, nbytes, mail, me, i, e, path, es, vs);
        v, next, ok := DenseValue(storage, view), i + 1, fits;
      case ShardedMeta(view, nbytes, spec) =>
        var storage, fits := RecvNext(existing, nbytes, mail, me, i, e, path, es, vs);
        v, next, ok := ShardedValue(storage, view, spec), i + 1, fits;
      case PlainMeta(value) =>
        v, next, ok := PlainValue(value), i, true;
    }
  }

  method RecvCheckpoint(existing: map<Path, Existing>, mail: Mail, me: nat, step: int, pickler: Pickler,
                        ghost sent: Meta, ghost entries: seq<Entry>)
    returns (c: Checkpoint)
    requires Inverse(pickler)
    requires sent.paths == Paths(entries) && sent.leaves == Metas(entries)
    requires Delivered(mail, me, pickler, sent, Storages(entries))
    modifies Targets(existing)
    ensures c.WrongStep? <==> step != sent.step
    ensures c.WrongSize? <==>
              step == sent.step && exists k :: 0 <= k < |entries| && !old(SizeFits(existing, entries[k]))
    ensures c.Checkpoint? ==> c.treespec == sent.treespec && AllPlaced(existing, entries, c.values)
    ensures c.Checkpoint? ==> (AllArrived(existing, entries, c.values) <==> TiedAlike(existing, entries))
  {
    hide Decoded, Storages;
    var length := mail[(me, LengthTag)].n;
    assert length > 0;
    var buf := mail[(me, MetaTag)].bytes;
    var meta := pickler.loads(buf[..length]);
    assert buf[..length] == buf && meta == sent;
    if meta.step != step {
      return WrongStep;
    }
    var values: seq<Value> := [];
    var i := 0;
    NothingBefore(entries);
    for k := 0 to |meta.paths|
      invariant i == |Storages(entries[..k])| && AllPlaced(existing, entries[..k], values)
      invariant TiedAlike(existing, entries) ==> AllArrived(existing, entries[..k], values)
      invariant forall j :: 0 <= j < k ==> old(SizeFits(existing, entries[j]))
      invariant forall p :: HasTarget(existing, p) ==>
                  |existing[p].storage.bytes| == old(|existing[p].storage.bytes|)
    {
      IndexIsAligned(entries, k);
      assert entries[..k + 1] == entries[..k] + [entries[k]];
      assert meta.paths[k] == entries[k].path && meta.leaves[k] == MetaOf(entries[k].leaf);
      if IsTensor(entries[k].leaf) {
        assert HasTensor(mail, me, Storages(entries), i);
      }
      var v, next, ok := RecvLeaf(existing, meta.paths[k], meta.leaves[k], mail, me, i, entries[k], entries[..k],
                                  values);
      if !ok {
        return WrongSize;
      }
      values := values + [v];
      i := next;
    }
    assert entries[..|entries|] == entries;
    c := Checkpoint(values, meta.treespec);
    if AllArrived(existing, entries, values) {
      ArrivedMeansTiedAlike(existing, entries, values);
    }
  }
}
