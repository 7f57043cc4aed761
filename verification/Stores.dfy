/** The in-memory store on the heap: byte buffers are copied on the way in and on the way out. */
module Stores {
  import opened Wrappers
  import opened Cluster

  type Buffer = array<Byte>

  /** `openidmeta.Data` and `certificate.Data`, the two types stores are made for. */
  datatype Data = Metadata(config: Buffer, jwks: Buffer) | Certificate(caBundle: Buffer)

  /** The bytes behind a `Data`. */
  datatype Content = MetadataOf(config: Bytes, jwks: Bytes) | CertificateOf(caBundle: Bytes)

  function Buffers(d: Data): set<Buffer> {
    match d
    case Metadata(config, jwks) => {config, jwks}
    case Certificate(caBundle) => {caBundle}
  }

  function Value(d: Data): Content
    reads Buffers(d)
  {
    match d
    case Metadata(config, jwks) => MetadataOf(config[..], jwks[..])
    case Certificate(caBundle) => CertificateOf(caBundle[..])
  }

  method FromBytes(bytes: Bytes) returns (b: Buffer)
    ensures fresh(b) && b[..] == bytes
  {
    b := new Byte[|bytes|](i requires 0 <= i < |bytes| => bytes[i]);
  }

  /** `make` followed by the built-in `copy`. */
  method Clone(b: Buffer) returns (c: Buffer)
    ensures fresh(c) && c[..] == b[..]
  {
    c := new Byte[b.Length];
    for i := 0 to b.Length
      invariant c[..i] == b[..i]
    {
      c[i] := b[i];
    }
    assert c[..] == c[..b.Length] && b[..] == b[..b.Length];
  }

  /** `openidmeta.Copy` and `certificate.Copy`. */
  method Copy(d: Data) returns (out: Data)
    ensures fresh(Buffers(out)) && Value(out) == Value(d)
    ensures out.Metadata? ==> out.config != out.jwks
  {
    match d {
      case Metadata(config, jwks) =>
        var c := Clone(config);
        var j := Clone(jwks);
        out := Metadata(c, j);
      case Certificate(caBundle) =>
        var c := Clone(caBundle);
        out := Certificate(c);
    }
  }

  class Store {
    var store: map<string, Data>
    ghost var contents: map<string, Content>  // the bytes under each key
    ghost var Repr: set<Buffer>  // every buffer the store has ever made for itself

    ghost predicate Valid()
      reads this, Repr
    {
      && contents.Keys == store.Keys
      && (forall k | k in store :: Buffers(store[k]) <= Repr && Value(store[k]) == contents[k])
      && Unshared()
    }

    /** No two entries, and no two slices of one entry, share a buffer. */
    ghost predicate Unshared()
      reads this
    {
      && (forall k, l | k in store && l in store && k != l :: Buffers(store[k]) !! Buffers(store[l]))
      && (forall k | k in store :: store[k].Metadata? ==> store[k].config != store[k].jwks)
    }

    constructor ()
      ensures Valid() && contents == map[] && Repr == {}
    {
      store, contents, Repr := map[], map[], {};
    }

    /** `Read`: what the caller gets is its own copy. */
    method Read(key: string) returns (data: Option<Data>)
      requires Valid()
      ensures data.Some? <==> key in contents
      ensures data.Some? ==> Value(data.value) == contents[key] && fresh(Buffers(data.value))
      ensures data.Some? && data.value.Metadata? ==> data.value.config != data.value.jwks
    {
      if key in store {
        var d := Copy(store[key]);
        data := Some(d);
      } else {
        data := None;
      }
    }

    /** `Write`: the store keeps a copy of its own. */
    method Write(key: string, data: Data)
      requires Valid()
      modifies this
      ensures Valid() && contents == old(contents)[key := old(Value(data))]
      ensures Repr >= old(Repr) && fresh(Repr - old(Repr))
    {
      var d := Copy(data);
      store := store[key := d];
      contents := contents[key := Value(d)];
      Repr := Repr + Buffers(d);
    }

    method Delete(key: string)
      requires Valid()
      modifies this
      ensures Valid() && contents == old(contents) - {key} && Repr == old(Repr)
    {
      store := store - {key};
      contents := contents - {key};
    }

    method Len() returns (n: nat)
      requires Valid()
      ensures n == |contents|
    {
      n := |store|;
      assert |store.Keys| == |contents.Keys|;
    }
  }

  // ---------------------------------------------------------------- isolation from any caller

  /** What a caller can do: own buffers, scribble over them at will, and call the store with them. */
  datatype Op =
    | Alloc(bytes: Bytes)
    | Scribble(buffer: nat, at: nat, byte: Byte)
    | WriteMetadata(key: string, config: nat, jwks: nat)
    | WriteCertificate(key: string, caBundle: nat)
    | Read(key: string)
    | Delete(key: string)

  /** The same caller in a world of values: nothing it holds is ever shared with the store. */
  datatype Client = Client(held: seq<Bytes>, store: map<string, Content>, results: seq<Option<Content>>)

  function Pieces(c: Content): seq<Bytes> {
    match c
    case MetadataOf(config, jwks) => [config, jwks]
    case CertificateOf(caBundle) => [caBundle]
  }

  function Do(c: Client, op: Op): Client {
    match op
    case Alloc(bytes) => c.(held := c.held + [bytes])
    case Scribble(b, at, byte) =>
      if b < |c.held| && at < |c.held[b]| then c.(held := c.held[b := c.held[b][at := byte]]) else c
    case WriteMetadata(key, i, j) =>
      if i < |c.held| && j < |c.held| then c.(store := c.store[key := MetadataOf(c.held[i], c.held[j])]) else c
    case WriteCertificate(key, i) =>
      if i < |c.held| then c.(store := c.store[key := CertificateOf(c.held[i])]) else c
    case Read(key) =>
      var got := Lookup(c.store, key);
      c.(held := if got.Some? then c.held + Pieces(got.value) else c.held, results := c.results + [got])
    case Delete(key) => c.(store := c.store - {key})
  }

  function Play(ops: seq<Op>): Client {
    if ops == [] then Client([], map[], []) else Do(Play(ops[..|ops| - 1]), ops[|ops| - 1])
  }

  ghost predicate Distinct(held: seq<Buffer>) {
    forall i, j | 0 <= i < j < |held| :: held[i] != held[j]
  }

  ghost predicate Holds(held: seq<Buffer>, values: seq<Bytes>)
    reads held
  {
    |held| == |values| && forall i | 0 <= i < |held| :: held[i][..] == values[i]
  }

  /** The caller's buffers and the store's are apart, and both sides hold the values of `c`. */
  ghost predicate Mirrors(s: Store, held: seq<Buffer>, c: Client)
    reads s, s.Repr, held
  {
    && s.Valid() && Distinct(held) && (forall b | b in held :: b !in s.Repr)
    && s.contents == c.store && Holds(held, c.held)
  }

  /** Every caller sees the store behave as if it held values: what it does to its buffers never shows. */
  method PlayOnHeap(ops: seq<Op>) returns (results: seq<Option<Content>>)
    ensures results == Play(ops).results
  {
    var s := new Store();
    var held: seq<Buffer> := [];
    results := [];
    for i := 0 to |ops|
      invariant fresh(s) && fresh(set b | b in held) && fresh(s.Repr)
      invariant Mirrors(s, held, Play(ops[..i]))
      invariant results == Play(ops[..i]).results
    {
      assert ops[..i + 1][..i] == ops[..i];
      var got;
      held, got := DoOnHeap(s, held, ops[i], Play(ops[..i]));
      results := results + got;
    }
    assert ops[..|ops|] == ops;
  }

  /** One operation of the caller. */
  method DoOnHeap(
      s: Store, held: seq<Buffer>, op: Op, ghost c: Client) returns (held': seq<Buffer>, got: seq<Option<Content>>)
    requires Mirrors(s, held, c)
    modifies s, held
    ensures Mirrors(s, held', Do(c, op)) && c.results + got == Do(c, op).results
    ensures forall b | b in held' :: b in held || fresh(b)
    ensures fresh(s.Repr - old(s.Repr))
  {
    held', got := held, [];
    match op {
      case Alloc(bytes) => held' := AllocOnHeap(s, held, bytes, c);
      case Scribble(b, at, byte) => ScribbleOnHeap(s, held, b, at, byte, c);
      case WriteMetadata(key, k, j) =>
        if k < |held| && j < |held| { WriteOnHeap(s, held, key, Metadata(held[k], held[j]), c); }
      case WriteCertificate(key, k) =>
        if k < |held| { WriteOnHeap(s, held, key, Certificate(held[k]), c); }
      case Read(key) =>
        var result;
        held', result := ReadOnHeap(s, held, key, c);
        got := [result];
      case Delete(key) => DeleteOnHeap(s, held, key, c);
    }
  }

  method DeleteOnHeap(s: Store, held: seq<Buffer>, key: string, ghost c: Client)
    requires Mirrors(s, held, c)
    modifies s
    ensures Mirrors(s, held, Do(c, Delete(key))) && s.Repr == old(s.Repr)
  {
    s.Delete(key);
  }

  method AllocOnHeap(s: Store, held: seq<Buffer>, bytes: Bytes, ghost c: Client) returns (held': seq<Buffer>)
    requires Mirrors(s, held, c)
    ensures Mirrors(s, held', Do(c, Alloc(bytes)))
    ensures forall b | b in held' :: b in held || fresh(b)
  {
    var b := FromBytes(bytes);
    held' := held + [b];
  }

  method ScribbleOnHeap(s: Store, held: seq<Buffer>, b: nat, at: nat, byte: Byte, ghost c: Client)
    requires Mirrors(s, held, c)
    modifies held
    ensures Mirrors(s, held, Do(c, Scribble(b, at, byte)))
  {
    if b < |held| && at < held[b].Length {
      held[b][at] := byte;
      assert held[b][..] == c.held[b][at := byte];
    }
  }

  method WriteOnHeap(s: Store, held: seq<Buffer>, key: string, d: Data, ghost c: Client)
    requires Mirrors(s, held, c) && Buffers(d) <= set b | b in held
    modifies s
    ensures Mirrors(s, held, c.(store := c.store[key := old(Value(d))]))
    ensures fresh(s.Repr - old(s.Repr))
  {
    s.Write(key, d);
  }

  method ReadOnHeap(
      s: Store, held: seq<Buffer>, key: string, ghost c: Client) returns (held': seq<Buffer>, got: Option<Content>)
    requires Mirrors(s, held, c)
    ensures Mirrors(s, held', Do(c, Read(key))) && got == Lookup(c.store, key)
    ensures forall b | b in held' :: b in held || fresh(b)
  {
    var data := s.Read(key);
    match data {
      case None => held', got := held, None;
      case Some(Metadata(config, jwks)) => held', got := held + [config, jwks], Some(Value(data.value));
      case Some(Certificate(caBundle)) => held', got := held + [caBundle], Some(Value(data.value));
    }
  }
}
