/** The document that carries connections from the renderer to the controller:
    one serialization of the same connections, and a strict reading of it. */
module ConnectionsDocument {
  import opened Basics
  import opened Sorting

  const SCHEMA_VERSION := 2
  const MAX_BYTES := 1048576

  datatype Store = Store(vault: string, item: string, bootstrap: string)

  /** A shape a connection can arrive in, by its settings: whether each is required. */
  datatype Shape = Shape(required: seq<bool>)

  /** A connection, and its settings under each shape it holds. */
  datatype Connection = Connection(ref: string, provider: string, store: Store, members: map<nat, seq<string>>)

  datatype Document = Document(version: int, connections: seq<Connection>)

  /** Bytes, and the text they are. */
  datatype Bytes = Bytes(text: string)

  /** A document as it is read, its list possibly missing. */
  datatype Read = Read(version: int, connections: Option<seq<Connection>>)

  /** How documents are written and read as JSON, strictly. */
  datatype Format = Format(write: Document -> Bytes, read: Bytes -> Option<Read>)

  /** A document is read as it was written. */
  predicate Faithful(format: Format, document: Document)
  {
    format.read(format.write(document)) == Some(Read(document.version, Some(document.connections)))
  }

  predicate RefFirst(c: char)
  {
    'a' <= c <= 'z' || 'A' <= c <= 'Z' || '0' <= c <= '9'
  }

  predicate ValidRef(ref: string)
  {
    ref != "" && RefFirst(ref[0])
    && forall i :: 0 < i < |ref| ==> RefFirst(ref[i]) || ref[i] == '_' || ref[i] == '.' || ref[i] == '-'
  }

  predicate SingleLine(text: string)
  {
    '\0' !in text && '\r' !in text && '\n' !in text
  }

  /** The places of the shapes a connection has members for. */
  function HeldShapes(shapes: seq<Shape>, connection: Connection): (held: set<nat>)
    ensures forall at :: at in held <==> at < |shapes| && at in connection.members
  {
    set at: nat | at < |shapes| && at in connection.members
  }

  /** A connection neither side could misread. */
  predicate IsSound(shapes: seq<Shape>, connection: Connection)
  {
    && ValidRef(connection.ref)
    && connection.provider != "" && SingleLine(connection.provider)
    && connection.store.vault != "" && connection.store.item != ""
    && SingleLine(connection.store.vault + connection.store.item + connection.store.bootstrap)
    && var held := HeldShapes(shapes, connection);
       |held| == 1
       && forall at :: at in held ==>
            |connection.members[at]| == |shapes[at].required|
            && forall i :: 0 <= i < |connection.members[at]| ==>
                 SingleLine(connection.members[at][i]) && (shapes[at].required[i] ==> connection.members[at][i] != "")
  }

  ghost predicate IsValid(shapes: seq<Shape>, document: Document)
  {
    && document.version == SCHEMA_VERSION
    && (forall i :: 0 <= i < |document.connections| ==> IsSound(shapes, document.connections[i]))
    && OwnRefs(document.connections)
  }

  ghost predicate OwnRefs(connections: seq<Connection>)
  {
    forall i, j :: 0 <= i < j < |connections| ==> connections[i].ref != connections[j].ref
  }

  method Validate(shapes: seq<Shape>, document: Document) returns (ok: bool)
    ensures ok <==> IsValid(shapes, document)
  {
    hide IsSound;
    if document.version != SCHEMA_VERSION {
      return false;
    }
    var refs: set<string> := {};
    for i := 0 to |document.connections|
      invariant forall j :: 0 <= j < i ==> IsSound(shapes, document.connections[j])
      invariant forall j, k :: 0 <= j < k < i ==> document.connections[j].ref != document.connections[k].ref
      invariant forall ref :: ref in refs <==> exists j :: 0 <= j < i && document.connections[j].ref == ref
    {
      var connection := document.connections[i];
      if !IsSound(shapes, connection) || connection.ref in refs {
        return false;
      }
      refs := refs + {connection.ref};
    }
    return true;
  }

  // ----------------------------------------------------------------- sorting

  ghost predicate ByRef(connections: seq<Connection>)
  {
    forall i, j :: 0 <= i < j < |connections| ==> AtMost(connections[i].ref, connections[j].ref)
  }

  /** What sorting by ref may leave: any order that has the refs in order. */
  ghost predicate SortsTo(connections: seq<Connection>, sorted: seq<Connection>)
  {
    multiset(sorted) == multiset(connections) && ByRef(sorted)
  }

  /** A sort by ref that promises no more than that: connections of one ref may
      end in either order. */
  method SortByRef(connections: seq<Connection>) returns (sorted: seq<Connection>)
    ensures SortsTo(connections, sorted)
  {
    hide AtMost;
    sorted := [];
    for i := 0 to |connections|
      invariant SortsTo(connections[..i], sorted)
    {
      var at := 0;
      OneIsAtMost(connections[i].ref, connections[i].ref);
      while at < |sorted| && !AtMost(connections[i].ref, sorted[at].ref)
        invariant 0 <= at <= |sorted|
        invariant forall j :: 0 <= j < at ==> AtMost(sorted[j].ref, connections[i].ref)
        decreases |sorted| - at
      {
        OneIsAtMost(connections[i].ref, sorted[at].ref);
        at := at + 1;
      }
      PutInOrder(sorted, at, connections[i]);
      assert connections[..i + 1] == connections[..i] + [connections[i]];
      assert sorted == sorted[..at] + sorted[at..];
      sorted := sorted[..at] + [connections[i]] + sorted[at..];
    }
    assert connections[..|connections|] == connections;
  }

  lemma PutInOrder(sorted: seq<Connection>, at: nat, connection: Connection)
    requires ByRef(sorted) && at <= |sorted|
    requires forall j :: 0 <= j < at ==> AtMost(sorted[j].ref, connection.ref)
    requires at < |sorted| ==> AtMost(connection.ref, sorted[at].ref)
    ensures ByRef(sorted[..at] + [connection] + sorted[at..])
  {
    hide AtMost;
    forall j | at <= j < |sorted|
      ensures AtMost(connection.ref, sorted[j].ref)
    {
      if j > at {
        AtMostTwice(connection.ref, sorted[at].ref, sorted[j].ref);
      }
    }
  }

  lemma OwnRefsAlike(one: seq<Connection>, other: seq<Connection>)
    requires OwnRefs(one) && multiset(one) == multiset(other)
    ensures OwnRefs(other)
  {
    forall i, j | 0 <= i < j < |other|
      ensures other[i].ref != other[j].ref
    {
      TwiceIn(other, i, j);
      assert other[i] in multiset(one) && other[j] in multiset(one);
      if other[i].ref == other[j].ref {
        var k :| 0 <= k < |one| && one[k] == other[i];
        var l :| 0 <= l < |one| && one[l] == other[j];
        assert k == l;
        OnceIn(one, k);
      }
    }
  }

  lemma TwiceIn(connections: seq<Connection>, i: nat, j: nat)
    requires i < j < |connections|
    ensures connections[i] == connections[j] ==> multiset(connections)[connections[i]] >= 2
  {
    assert connections == connections[..i] + [connections[i]] + connections[i + 1..];
    assert connections[i + 1..][j - i - 1] == connections[j];
    assert connections[j] in connections[i + 1..];
  }

  lemma OnceIn(connections: seq<Connection>, k: nat)
    requires OwnRefs(connections) && k < |connections|
    ensures multiset(connections)[connections[k]] == 1
  {
    assert connections == connections[..k] + [connections[k]] + connections[k + 1..];
    assert connections[k] !in connections[..k] && connections[k] !in connections[k + 1..];
  }

  /** With a ref each, there is one way to sort them, though the sort is not stable. */
  lemma {:induction false} OneSorting(one: seq<Connection>, other: seq<Connection>)
    requires ByRef(one) && ByRef(other) && multiset(one) == multiset(other) && OwnRefs(one)
    ensures one == other
    decreases |one|
  {
    assert |one| == |multiset(one)| == |multiset(other)| == |other|;
    if one != [] {
      FirstIsLeast(one, other);
      FirstIsLeast(other, one);
      OneIsAtMost(one[0].ref, other[0].ref);
      assert other[0] in multiset(one);
      var k :| 0 <= k < |one| && one[k] == other[0];
      assert k == 0;
      RestByRef(one);
      RestByRef(other);
      hide AtMost, ByRef;
      OneSorting(one[1..], other[1..]);
    }
  }

  lemma FirstIsLeast(one: seq<Connection>, other: seq<Connection>)
    requires ByRef(one) && one != [] && other != [] && multiset(one) == multiset(other)
    ensures AtMost(one[0].ref, other[0].ref)
  {
    hide AtMost;
    assert other[0] in multiset(one);
    var at :| 0 <= at < |one| && one[at] == other[0];
    OneIsAtMost(one[0].ref, one[0].ref);
  }

  lemma RestByRef(connections: seq<Connection>)
    requires ByRef(connections) && connections != []
    ensures ByRef(connections[1..]) && connections == [connections[0]] + connections[1..]
    ensures multiset(connections[1..]) == multiset(connections) - multiset{connections[0]}
  {
    hide AtMost;
    assert connections == [connections[0]] + connections[1..];
  }

  // ------------------------------------------------------- encoding, decoding

  /** Validated, sorted by ref and written, when it is not too large to be read. */
  method Encode(format: Format, shapes: seq<Shape>, document: Document) returns (data: Option<Bytes>)
    ensures data.Some? ==> IsValid(shapes, document) && |data.value.text| <= MAX_BYTES
    ensures data.Some? ==> forall sorted :: SortsTo(document.connections, sorted) ==>
              data.value == format.write(Document(document.version, sorted))
    ensures data == None && IsValid(shapes, document) ==> forall sorted :: SortsTo(document.connections, sorted) ==>
              |format.write(Document(document.version, sorted)).text| > MAX_BYTES
  {
    hide IsValid, OwnRefs, ByRef, IsSound;
    var ok := Validate(shapes, document);
    if !ok {
      return None;
    }
    var sorted := SortByRef(document.connections);
    forall other | SortsTo(document.connections, other)
      ensures other == sorted
    {
      ItsRefs(shapes, document);
      OwnRefsAlike(document.connections, other);
      OneSorting(other, sorted);
    }
    var written := format.write(Document(document.version, sorted));
    return if |written.text| > MAX_BYTES then None else Some(written);
  }

  lemma ItsRefs(shapes: seq<Shape>, document: Document)
    requires IsValid(shapes, document)
    ensures OwnRefs(document.connections)
  {
  }

  method Decode(format: Format, shapes: seq<Shape>, data: Bytes) returns (document: Option<Document>)
    ensures document.Some? ==> |data.text| <= MAX_BYTES && IsValid(shapes, document.value)
    ensures document.Some? ==> format.read(data) == Some(Read(document.value.version, Some(document.value.connections)))
    ensures document == None && |data.text| <= MAX_BYTES ==>
              forall read :: format.read(data) == Some(read) && read.connections.Some? ==>
                !IsValid(shapes, Document(read.version, read.connections.value))
  {
    hide IsValid;
    if |data.text| > MAX_BYTES {
      return None;
    }
    var read := format.read(data);
    if read == None || read.value.connections == None {
      return None;
    }
    var said := Document(read.value.version, read.value.connections.value);
    var ok := Validate(shapes, said);
    return if ok then Some(said) else None;
  }

  /** The same connections, in any order, are the same bytes or the same refusal. */
  method EncodedAlike(format: Format, shapes: seq<Shape>, one: Document, other: Document) returns (first: Option<Bytes>, second: Option<Bytes>)
    requires one.version == other.version && multiset(one.connections) == multiset(other.connections)
    ensures first == second
  {
    hide IsValid, OwnRefs, ByRef;
    first := Encode(format, shapes, one);
    second := Encode(format, shapes, other);
    var sorted := SortByRef(one.connections);
    assert SortsTo(one.connections, sorted) && SortsTo(other.connections, sorted);
    ValidAlike(shapes, one, other);
  }

  lemma ValidAlike(shapes: seq<Shape>, one: Document, other: Document)
    requires one.version == other.version && multiset(one.connections) == multiset(other.connections)
    ensures IsValid(shapes, one) <==> IsValid(shapes, other)
  {
    hide IsSound;
    if IsValid(shapes, one) {
      OneValid(shapes, one, other);
    }
    if IsValid(shapes, other) {
      OneValid(shapes, other, one);
    }
  }

  lemma OneValid(shapes: seq<Shape>, one: Document, other: Document)
    requires IsValid(shapes, one) && one.version == other.version && multiset(one.connections) == multiset(other.connections)
    ensures IsValid(shapes, other)
  {
    hide IsSound;
    OwnRefsAlike(one.connections, other.connections);
    forall i | 0 <= i < |other.connections|
      ensures IsSound(shapes, other.connections[i])
    {
      assert other.connections[i] in multiset(one.connections);
      assert other.connections[i] in one.connections;
    }
  }

  /** The round trip: what is encoded is decoded as the document sorted by ref,
      and nothing that is encoded is refused. */
  method Decoded(format: Format, shapes: seq<Shape>, document: Document) returns (data: Option<Bytes>, decoded: Option<Document>)
    requires forall sorted :: SortsTo(document.connections, sorted) ==> Faithful(format, Document(document.version, sorted))
    ensures data.Some? ==> decoded.Some? && decoded.value.version == document.version
    ensures data.Some? ==> SortsTo(document.connections, decoded.value.connections)
    ensures data == None && IsValid(shapes, document) ==> forall sorted :: SortsTo(document.connections, sorted) ==>
              |format.write(Document(document.version, sorted)).text| > MAX_BYTES
  {
    hide IsValid, OwnRefs, ByRef;
    data := Encode(format, shapes, document);
    if data == None {
      return None, None;
    }
    var sorted := SortByRef(document.connections);
    ValidAlike(shapes, document, Document(document.version, sorted));
    assert Faithful(format, Document(document.version, sorted));
    decoded := Decode(format, shapes, data.value);
  }
}
