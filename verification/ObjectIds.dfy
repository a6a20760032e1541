/** Object identifiers: an object id and the string key (OID) the graph stores for it.
    The key is printed in one place and parsed back wherever a traversal needs the group-kind,
    so everything built on keys depends on when that round trip is exact. */
module ObjectIds {

  datatype Option<+T> = None | Some(value: T)

  type OID = string

  datatype GroupKind = GroupKind(group: string, kind: string)

  datatype ObjectID = ObjectID(group: string, kind: string, namespace: string, name: string) {
    function OID(): OID {
      "G=" + group + ",K=" + kind + ",NS=" + namespace + ",N=" + name
    }

    function TypeKey(): GroupKind {
      GroupKind(group, kind)
    }
  }

  /** The characters Go's unicode.IsSpace accepts. */
  predicate IsSpace(c: char) {
    var n := c as int;
    9 <= n <= 13 || n == 32 || n == 0x85 || n == 0xA0 || n == 0x1680 || 0x2000 <= n <= 0x200A
    || n == 0x2028 || n == 0x2029 || n == 0x202F || n == 0x205F || n == 0x3000
  }

  predicate IsSeparator(c: char) {
    c == '=' || IsSpace(c)
  }

  /** Go's strings.Split(s, ","), with the chunk read so far in `cur`. */
  function SplitFrom(s: string, cur: string): seq<string> {
    if s == [] then [cur]
    else if s[0] == ',' then [cur] + SplitFrom(s[1..], [])
    else SplitFrom(s[1..], cur + [s[0]])
  }

  /** Go's strings.FieldsFunc with IsSeparator: the maximal separator-free runs. */
  function FieldsFrom(s: string, cur: string): seq<string> {
    var done := if cur == [] then [] else [cur];
    if s == [] then done
    else if IsSeparator(s[0]) then done + FieldsFrom(s[1..], [])
    else FieldsFrom(s[1..], cur + [s[0]])
  }

  /** One iteration of the parser's loop over the chunks of a key. */
  function ParseChunk(chunk: string, id: ObjectID): Option<ObjectID> {
    var parts := FieldsFrom(chunk, []);
    if |parts| == 0 || |parts| > 2 then None
    else if parts[0] == "G" then Some(if |parts| == 2 then id.(group := parts[1]) else id)
    else if parts[0] == "K" then (if |parts| == 1 then None else Some(id.(kind := parts[1])))
    else if parts[0] == "NS" then Some(if |parts| == 2 then id.(namespace := parts[1]) else id)
    else if parts[0] == "N" then (if |parts| == 1 then None else Some(id.(name := parts[1])))
    else None
  }

  function ParseChunks(chunks: seq<string>, id: ObjectID): Option<ObjectID> {
    if chunks == [] then Some(id)
    else match ParseChunk(chunks[0], id)
      case None => None
      case Some(next) => ParseChunks(chunks[1..], next)
  }

  function ParseObjectID(key: OID): Option<ObjectID> {
    ParseChunks(SplitFrom(key, []), ObjectID("", "", "", ""))
  }

  /** A key that the parser accepts and that printing reproduces. */
  predicate Canonical(key: OID) {
    var id := ParseObjectID(key);
    id.Some? && id.value.OID() == key
  }

  /** The group-kind of a key; the source panics on a key that does not parse. */
  function GK(key: OID): GroupKind {
    match ParseObjectID(key)
    case Some(id) => id.TypeKey()
    case None => GroupKind("", "")
  }

  predicate Tidy(s: string) {
    forall c <- s :: c != ',' && !IsSeparator(c)
  }

  predicate AllTidy(id: ObjectID) {
    Tidy(id.group) && Tidy(id.kind) && Tidy(id.namespace) && Tidy(id.name)
  }

  /** What it takes for an object to keep its identity as a key. */
  predicate Printable(id: ObjectID) {
    AllTidy(id) && id.kind != "" && id.name != ""
  }

  lemma {:induction false} SplitTidy(a: string, rest: string, cur: string)
    requires ',' !in a
    ensures SplitFrom(a + rest, cur) == SplitFrom(rest, cur + a)
    decreases |a|
  {
    if a == [] {
      assert a + rest == rest && cur + a == cur;
    } else {
      assert (a + rest)[0] == a[0] && (a + rest)[1..] == a[1..] + rest;
      SplitTidy(a[1..], rest, cur + [a[0]]);
      assert cur + [a[0]] + a[1..] == cur + a;
    }
  }

  lemma {:induction false} FieldsTidy(a: string, rest: string, cur: string)
    requires Tidy(a)
    ensures FieldsFrom(a + rest, cur) == FieldsFrom(rest, cur + a)
    decreases |a|
  {
    if a == [] {
      assert a + rest == rest && cur + a == cur;
    } else {
      assert (a + rest)[0] == a[0] && (a + rest)[1..] == a[1..] + rest;
      FieldsTidy(a[1..], rest, cur + [a[0]]);
      assert cur + [a[0]] + a[1..] == cur + a;
    }
  }

  lemma ChunkFields(tag: string, v: string)
    requires tag != "" && Tidy(tag) && Tidy(v)
    ensures FieldsFrom(tag + "=" + v, []) == if v == "" then [tag] else [tag, v]
  {
    FieldsTidy(tag, "=" + v, []);
    assert tag + "=" + v == tag + ("=" + v) && [] + tag == tag && ("=" + v)[1..] == v;
    FieldsTidy(v, [], []);
    assert v + [] == v && [] + v == v;
  }

  lemma ChunksOfKey(id: ObjectID)
    requires AllTidy(id)
    ensures SplitFrom(id.OID(), []) == ["G=" + id.group, "K=" + id.kind, "NS=" + id.namespace, "N=" + id.name]
  {
    var n := "N=" + id.name;
    var ns := "NS=" + id.namespace;
    var k := "K=" + id.kind;
    var g := "G=" + id.group;
    assert id.OID() == g + ("," + (k + ("," + (ns + ("," + n)))));
    SplitOne(g, k + ("," + (ns + ("," + n))));
    SplitOne(k, ns + ("," + n));
    SplitOne(ns, n);
    SplitTidy(n, [], []);
    assert n + [] == n && [] + n == n;
  }

  lemma SplitOne(a: string, rest: string)
    requires ',' !in a
    ensures SplitFrom(a + ("," + rest), []) == [a] + SplitFrom(rest, [])
  {
    SplitTidy(a, "," + rest, []);
    assert [] + a == a && ("," + rest)[1..] == rest;
  }

  lemma {:induction false} SplitHasNoComma(s: string, cur: string)
    requires ',' !in cur
    ensures forall chunk <- SplitFrom(s, cur) :: ',' !in chunk
    decreases |s|
  {
    if s != [] {
      SplitHasNoComma(s[1..], if s[0] == ',' then [] else cur + [s[0]]);
    }
  }

  lemma {:induction false} FieldsAreTidy(s: string, cur: string)
    requires ',' !in s && Tidy(cur)
    ensures forall part <- FieldsFrom(s, cur) :: Tidy(part)
    decreases |s|
  {
    if s != [] {
      FieldsAreTidy(s[1..], if IsSeparator(s[0]) then [] else cur + [s[0]]);
    }
  }

  lemma {:induction false} ParsedIsTidy(chunks: seq<string>, id: ObjectID)
    requires AllTidy(id) && forall chunk <- chunks :: ',' !in chunk
    ensures var r := ParseChunks(chunks, id); r.Some? ==> AllTidy(r.value)
    decreases |chunks|
  {
    if chunks != [] {
      FieldsAreTidy(chunks[0], []);
      var next := ParseChunk(chunks[0], id);
      if next.Some? {
        ParsedIsTidy(chunks[1..], next.value);
      }
    }
  }

  /** What each of the four chunks of a tidy key does to the id read so far. */
  lemma ParseTidyChunks(id: ObjectID, read: ObjectID)
    requires AllTidy(id)
    ensures ParseChunk("G=" + id.group, read) == Some(if id.group == "" then read else read.(group := id.group))
    ensures ParseChunk("K=" + id.kind, read) == if id.kind == "" then None else Some(read.(kind := id.kind))
    ensures ParseChunk("NS=" + id.namespace, read)
         == Some(if id.namespace == "" then read else read.(namespace := id.namespace))
    ensures ParseChunk("N=" + id.name, read) == if id.name == "" then None else Some(read.(name := id.name))
  {
    ChunkFields("G", id.group);
    ChunkFields("K", id.kind);
    ChunkFields("NS", id.namespace);
    ChunkFields("N", id.name);
    assert "G" + "=" == "G=" && "K" + "=" == "K=" && "NS" + "=" == "NS=" && "N" + "=" == "N=";
  }

  lemma ParseCons(chunk: string, rest: seq<string>, read: ObjectID)
    ensures ParseChunks([chunk] + rest, read)
         == match ParseChunk(chunk, read) case None => None case Some(next) => ParseChunks(rest, next)
  {
    assert ([chunk] + rest)[1..] == rest;
  }

  lemma ParseTidyKey(id: ObjectID)
    requires AllTidy(id)
    ensures ParseObjectID(id.OID()) == if Printable(id) then Some(id) else None
  {
    ChunksOfKey(id);
    var g, k, ns, n := "G=" + id.group, "K=" + id.kind, "NS=" + id.namespace, "N=" + id.name;
    var r0 := ObjectID("", "", "", "");
    var r1 := r0.(group := id.group);
    var r2 := r1.(kind := id.kind);
    var r3 := r2.(namespace := id.namespace);
    ParseTidyChunks(id, r0);
    ParseTidyChunks(id, r1);
    ParseTidyChunks(id, r2);
    ParseTidyChunks(id, r3);
    assert [g, k, ns, n] == [g] + [k, ns, n] && [k, ns, n] == [k] + [ns, n] && [ns, n] == [ns] + [n] && [n] == [n] + [];
    ParseCons(g, [k, ns, n], r0);
    ParseCons(k, [ns, n], r1);
    ParseCons(ns, [n], r2);
    ParseCons(n, [], r3);
  }

  /** Parsing a printed key gives the object id back exactly when the id is printable. */
  lemma RoundTrip(id: ObjectID)
    ensures ParseObjectID(id.OID()) == Some(id) <==> Printable(id)
  {
    SplitHasNoComma(id.OID(), []);
    ParsedIsTidy(SplitFrom(id.OID(), []), ObjectID("", "", "", ""));
    if AllTidy(id) {
      ParseTidyKey(id);
    }
  }

  /** Distinct printable objects have distinct keys, and every such key is canonical. */
  lemma KeysAreInjective(a: ObjectID, b: ObjectID)
    requires Printable(a) && Printable(b)
    ensures Canonical(a.OID()) && GK(a.OID()) == a.TypeKey()
    ensures a.OID() == b.OID() <==> a == b
  {
    RoundTrip(a);
    RoundTrip(b);
  }
}
