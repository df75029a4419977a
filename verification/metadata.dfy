/** `flattenMetadata` and `formatMetadata`: nested metadata objects turned into
    `a.b: value` lines inside a fenced block. */
module Metadata {
  import opened Wrappers
  import opened Text

  /** A JavaScript value as the metadata holds it. Numbers are integers here; objects
      list their properties in the order `Object.entries` reports them. */
  datatype JsValue =
    | JUndefined
    | JNull
    | JBool(b: bool)
    | JNumber(n: int)
    | JString(s: string)
    | JArray(items: seq<JsValue>)
    | JObject(fields: seq<Field>)

  datatype Field = Field(key: string, value: JsValue)

  /** JavaScript truthiness. */
  predicate Truthy(v: JsValue) {
    match v
    case JUndefined => false
    case JNull => false
    case JBool(b) => b
    case JNumber(n) => n != 0
    case JString(s) => s != ""
    case JArray(_) => true
    case JObject(_) => true
  }

  /** `v && typeof v === 'object'`. */
  predicate IsObject(v: JsValue) {
    v.JArray? || v.JObject?
  }

  function IntToString(n: int): string {
    if n < 0 then "-" + NatToString(-n) else NatToString(n)
  }

  /** `String(v)` for a value that is not an object. */
  function StringOf(v: JsValue): string
    requires !IsObject(v)
  {
    match v
    case JUndefined => "undefined"
    case JNull => "null"
    case JBool(b) => if b then "true" else "false"
    case JNumber(n) => IntToString(n)
    case JString(s) => s
  }

  /** `prefix ? `${prefix}.${k}` : k`. */
  function PathKey(prefix: string, k: string): string {
    if prefix != "" then prefix + "." + k else k
  }

  /** One output row: the dotted key and the rendered value. */
  datatype Row = Row(key: string, value: string)

  function Size(v: JsValue): (n: nat)
    ensures n >= 1
  {
    match v
    case JArray(items) => 1 + ItemsSize(items)
    case JObject(fields) => 1 + FieldsSize(fields)
    case _ => 1
  }

  function ItemsSize(items: seq<JsValue>): nat {
    if items == [] then 0 else Size(items[0]) + ItemsSize(items[1..])
  }

  function FieldsSize(fields: seq<Field>): nat {
    if fields == [] then 0 else Size(fields[0].value) + FieldsSize(fields[1..])
  }

  /** `flattenMetadata(v, prefix)`: one row per entry that is not an object, nested
      objects and arrays flattened under the dotted key. `Object.entries` of a falsy
      value is empty (`obj || {}`), of an array or a string gives its indices. */
  function Flatten(v: JsValue, prefix: string): seq<Row>
    decreases Size(v), 0
  {
    match v
    case JObject(fields) => FlattenFields(fields, prefix)
    case JArray(items) => FlattenItems(items, 0, prefix)
    case JString(s) => CharRows(s, 0, prefix)
    case _ => []
  }

  /** The loop body of `flattenMetadata` over the properties of an object. */
  function FlattenFields(fields: seq<Field>, prefix: string): seq<Row>
    decreases FieldsSize(fields), 1
  {
    if fields == [] then []
    else
      var key := PathKey(prefix, fields[0].key);
      var v := fields[0].value;
      (if IsObject(v) then Flatten(v, key) else [Row(key, StringOf(v))])
      + FlattenFields(fields[1..], prefix)
  }

  /** The same loop over the elements of an array, keyed by index from `start`. */
  function FlattenItems(items: seq<JsValue>, start: nat, prefix: string): seq<Row>
    decreases ItemsSize(items), 1
  {
    if items == [] then []
    else
      var key := PathKey(prefix, NatToString(start));
      var v := items[0];
      (if IsObject(v) then Flatten(v, key) else [Row(key, StringOf(v))])
      + FlattenItems(items[1..], start + 1, prefix)
  }

  /** `Object.entries` of a string: one single-character entry per index. */
  function CharRows(s: string, start: nat, prefix: string): seq<Row>
    decreases |s|
  {
    if s == [] then [] else [Row(PathKey(prefix, NatToString(start)), [s[0]])] + CharRows(s[1..], start + 1, prefix)
  }

  /** Under a non-empty prefix, every flattened key is that prefix followed by a dot. */
  lemma {:induction false} FlattenUnderPrefix(v: JsValue, prefix: string, r: Row)
    requires prefix != "" && r in Flatten(v, prefix)
    ensures prefix + "." <= r.key
    decreases Size(v), 0
  {
    match v
    case JObject(fields) => FieldsUnderPrefix(fields, prefix, r);
    case JArray(items) => ItemsUnderPrefix(items, 0, prefix, r);
    case JString(s) => CharsUnderPrefix(s, 0, prefix, r);
  }

  lemma {:induction false} FieldsUnderPrefix(fields: seq<Field>, prefix: string, r: Row)
    requires prefix != "" && r in FlattenFields(fields, prefix)
    ensures prefix + "." <= r.key
    decreases FieldsSize(fields), 1
  {
    var key := PathKey(prefix, fields[0].key);
    var v := fields[0].value;
    var head := if IsObject(v) then Flatten(v, key) else [Row(key, StringOf(v))];
    assert FlattenFields(fields, prefix) == head + FlattenFields(fields[1..], prefix);
    if r in head {
      if IsObject(v) {
        FlattenUnderPrefix(v, key, r);
        assert key + "." <= r.key;
      }
      assert r.key[..|prefix| + 1] == key[..|prefix| + 1];
    } else {
      FieldsUnderPrefix(fields[1..], prefix, r);
    }
  }

  lemma {:induction false} ItemsUnderPrefix(items: seq<JsValue>, start: nat, prefix: string, r: Row)
    requires prefix != "" && r in FlattenItems(items, start, prefix)
    ensures prefix + "." <= r.key
    decreases ItemsSize(items), 1
  {
    var key := PathKey(prefix, NatToString(start));
    var v := items[0];
    var head := if IsObject(v) then Flatten(v, key) else [Row(key, StringOf(v))];
    assert FlattenItems(items, start, prefix) == head + FlattenItems(items[1..], start + 1, prefix);
    if r in head {
      if IsObject(v) {
        FlattenUnderPrefix(v, key, r);
        assert key + "." <= r.key;
      }
      assert r.key[..|prefix| + 1] == key[..|prefix| + 1];
    } else {
      ItemsUnderPrefix(items[1..], start + 1, prefix, r);
    }
  }

  lemma {:induction false} CharsUnderPrefix(s: string, start: nat, prefix: string, r: Row)
    requires prefix != "" && r in CharRows(s, start, prefix)
    ensures prefix + "." <= r.key
    decreases |s|
  {
    if r != Row(PathKey(prefix, NatToString(start)), [s[0]]) {
      CharsUnderPrefix(s[1..], start + 1, prefix, r);
    }
  }

  /** An object none of whose values is an object flattens to one row per property,
      in property order, keyed by the property name under the prefix. */
  lemma {:induction false} FlattenFlatObject(fields: seq<Field>, prefix: string)
    requires forall i :: 0 <= i < |fields| ==> !IsObject(fields[i].value)
    ensures |Flatten(JObject(fields), prefix)| == |fields|
    ensures forall i :: 0 <= i < |fields| ==>
      Flatten(JObject(fields), prefix)[i] == Row(PathKey(prefix, fields[i].key), StringOf(fields[i].value))
  {
    if fields != [] {
      FlattenFlatObject(fields[1..], prefix);
      assert Flatten(JObject(fields[1..]), prefix) == FlattenFields(fields[1..], prefix);
    }
  }

  // ---------------------------------------------------------------------------
  // The rows as leaves reached by a property path

  /** `Object.entries(v || {})`: an object's properties; an array's indices with their
      elements; a string's indices with their characters; nothing for anything else. */
  function Entries(v: JsValue): seq<Field> {
    match v
    case JObject(fields) => fields
    case JArray(items) => IndexFields(items, 0)
    case JString(s) => CharFields(s, 0)
    case _ => []
  }

  function IndexFields(items: seq<JsValue>, start: nat): (fs: seq<Field>)
    ensures |fs| == |items|
  {
    if items == [] then [] else [Field(NatToString(start), items[0])] + IndexFields(items[1..], start + 1)
  }

  function CharFields(s: string, start: nat): (fs: seq<Field>)
    ensures |fs| == |s|
  {
    if s == [] then [] else [Field(NatToString(start), JString([s[0]]))] + CharFields(s[1..], start + 1)
  }

  /** The rows one entry contributes under `prefix`. */
  function EntryRows(f: Field, prefix: string): seq<Row> {
    var key := PathKey(prefix, f.key);
    if IsObject(f.value) then Flatten(f.value, key) else [Row(key, StringOf(f.value))]
  }

  /** `leaf`, which is not an object, is reached from `v` by the property names of
      `path`, each but the last leading to an object. */
  ghost predicate LeafAt(v: JsValue, path: seq<string>, leaf: JsValue)
    decreases |path|
  {
    exists f :: f in Entries(v) && |path| >= 1 && f.key == path[0]
      && if |path| == 1 then f.value == leaf && !IsObject(leaf)
         else IsObject(f.value) && LeafAt(f.value, path[1..], leaf)
  }

  /** The dotted key of a path under a prefix. */
  function DottedKey(prefix: string, path: seq<string>): string
    decreases |path|
  {
    if path == [] then prefix else DottedKey(PathKey(prefix, path[0]), path[1..])
  }

  /** The rows of `flattenMetadata` are exactly the leaves: a row `key: value` comes out
      if and only if some leaf sits at a path whose dotted key is `key` and renders as
      `value`. */
  lemma FlattenRows(v: JsValue, prefix: string, r: Row)
    ensures r in Flatten(v, prefix) <==>
      exists path, leaf :: !IsObject(leaf) && LeafAt(v, path, leaf) && r == Row(DottedKey(prefix, path), StringOf(leaf))
  {
    if r in Flatten(v, prefix) {
      FlattenSound(v, prefix, r);
    }
    if exists path, leaf :: !IsObject(leaf) && LeafAt(v, path, leaf) && r == Row(DottedKey(prefix, path), StringOf(leaf)) {
      var path, leaf :| !IsObject(leaf) && LeafAt(v, path, leaf) && r == Row(DottedKey(prefix, path), StringOf(leaf));
      FlattenComplete(v, path, leaf, prefix);
    }
  }

  lemma {:induction false} FlattenSound(v: JsValue, prefix: string, r: Row)
    requires r in Flatten(v, prefix)
    ensures exists path, leaf :: !IsObject(leaf) && LeafAt(v, path, leaf) && r == Row(DottedKey(prefix, path), StringOf(leaf))
    decreases Size(v)
  {
    FlattenIsEntries(v, prefix);
    FieldsMember(Entries(v), prefix, r);
    var f :| f in Entries(v) && r in EntryRows(f, prefix);
    var key := PathKey(prefix, f.key);
    EntrySize(v, f);
    if IsObject(f.value) {
      FlattenSound(f.value, key, r);
      var path, leaf :| !IsObject(leaf) && LeafAt(f.value, path, leaf) && r == Row(DottedKey(key, path), StringOf(leaf));
      var full := [f.key] + path;
      assert full[0] == f.key && full[1..] == path;
      assert LeafAt(v, full, leaf);
      assert DottedKey(prefix, full) == DottedKey(key, path);
    } else {
      assert LeafAt(v, [f.key], f.value);
      assert DottedKey(prefix, [f.key]) == DottedKey(key, []);
    }
  }

  lemma {:induction false} FlattenComplete(v: JsValue, path: seq<string>, leaf: JsValue, prefix: string)
    requires !IsObject(leaf) && LeafAt(v, path, leaf)
    ensures Row(DottedKey(prefix, path), StringOf(leaf)) in Flatten(v, prefix)
    decreases |path|
  {
    var f :| f in Entries(v) && |path| >= 1 && f.key == path[0]
      && if |path| == 1 then f.value == leaf && !IsObject(leaf)
         else IsObject(f.value) && LeafAt(f.value, path[1..], leaf);
    var key := PathKey(prefix, f.key);
    var r := Row(DottedKey(prefix, path), StringOf(leaf));
    assert DottedKey(prefix, path) == DottedKey(key, path[1..]);
    if |path| == 1 {
      assert path[1..] == [];
      assert EntryRows(f, prefix) == [r];
    } else {
      FlattenComplete(f.value, path[1..], leaf, key);
    }
    FlattenIsEntries(v, prefix);
    FieldsMember(Entries(v), prefix, r);
  }

  /** Flattening a value is flattening its entries. */
  lemma FlattenIsEntries(v: JsValue, prefix: string)
    ensures Flatten(v, prefix) == FlattenFields(Entries(v), prefix)
  {
    match v
    case JArray(items) => ItemsAsFields(items, 0, prefix);
    case JString(s) => CharsAsFields(s, 0, prefix);
    case _ =>
  }

  lemma {:induction false} ItemsAsFields(items: seq<JsValue>, start: nat, prefix: string)
    ensures FlattenItems(items, start, prefix) == FlattenFields(IndexFields(items, start), prefix)
  {
    if items != [] {
      ItemsAsFields(items[1..], start + 1, prefix);
      assert IndexFields(items, start)[1..] == IndexFields(items[1..], start + 1);
    }
  }

  lemma {:induction false} CharsAsFields(s: string, start: nat, prefix: string)
    ensures CharRows(s, start, prefix) == FlattenFields(CharFields(s, start), prefix)
  {
    if s != [] {
      CharsAsFields(s[1..], start + 1, prefix);
      assert CharFields(s, start)[1..] == CharFields(s[1..], start + 1);
    }
  }

  /** A row of a list of entries comes from one of them. */
  lemma {:induction false} FieldsMember(fields: seq<Field>, prefix: string, r: Row)
    ensures r in FlattenFields(fields, prefix) <==> exists f :: f in fields && r in EntryRows(f, prefix)
  {
    if fields != [] {
      FieldsMember(fields[1..], prefix, r);
      assert FlattenFields(fields, prefix) == EntryRows(fields[0], prefix) + FlattenFields(fields[1..], prefix);
      assert forall f :: f in fields <==> f == fields[0] || f in fields[1..];
    }
  }

  /** An entry that is an object is smaller than the value it belongs to. */
  lemma EntrySize(v: JsValue, f: Field)
    requires f in Entries(v)
    ensures IsObject(f.value) ==> Size(f.value) < Size(v)
  {
    match v
    case JObject(fields) => FieldSize(fields, f);
    case JArray(items) => IndexFieldSize(items, 0, f);
    case JString(s) => CharFieldLeaf(s, 0, f);
  }

  lemma {:induction false} FieldSize(fields: seq<Field>, f: Field)
    requires f in fields
    ensures Size(f.value) <= FieldsSize(fields)
  {
    if f != fields[0] {
      FieldSize(fields[1..], f);
    }
  }

  lemma {:induction false} IndexFieldSize(items: seq<JsValue>, start: nat, f: Field)
    requires f in IndexFields(items, start)
    ensures Size(f.value) <= ItemsSize(items)
  {
    if f != Field(NatToString(start), items[0]) {
      IndexFieldSize(items[1..], start + 1, f);
    }
  }

  lemma {:induction false} CharFieldLeaf(s: string, start: nat, f: Field)
    requires f in CharFields(s, start)
    ensures !IsObject(f.value)
  {
    if f != Field(NatToString(start), JString([s[0]])) {
      CharFieldLeaf(s[1..], start + 1, f);
    }
  }

  /** `Object.keys(v).length`. */
  function KeyCount(v: JsValue): nat {
    match v
    case JObject(fields) => |fields|
    case JArray(items) => |items|
    case JString(s) => |s|
    case _ => 0
  }

  function RowLines(rows: seq<Row>): (lines: seq<string>)
    ensures |lines| == |rows|
    ensures forall i :: 0 <= i < |rows| ==> lines[i] == rows[i].key + ": " + rows[i].value
  {
    if rows == [] then [] else [rows[0].key + ": " + rows[0].value] + RowLines(rows[1..])
  }

  /** `formatMetadata(metadata)`: `undefined` exactly when the value has no entries (a
      falsy value, or one without keys); otherwise a fenced block. */
  function FormatMetadata(metadata: JsValue): (r: Option<string>)
    ensures r.None? <==> Entries(metadata) == []
    ensures r.Some? ==> |r.value| >= 8 && r.value[..4] == "```\n" && r.value[|r.value| - 4..] == "\n```"
  {
    if !Truthy(metadata) || KeyCount(metadata) == 0 then None
    else Some("```\n" + Join(RowLines(Flatten(metadata, "")), "\n") + "\n```")
  }

  /** When no key or value holds a newline, the lines of the block are the opening
      fence, one `key: value` line per flattened row (one empty line when there is no
      row), and the closing fence. */
  lemma FormatMetadataLines(metadata: JsValue)
    requires FormatMetadata(metadata).Some?
    requires forall r :: r in Flatten(metadata, "") ==> '\n' !in r.key && '\n' !in r.value
    ensures var rows := Flatten(metadata, "");
      Split(FormatMetadata(metadata).value, '\n')
      == ["```"] + (if rows == [] then [""] else RowLines(rows)) + ["```"]
  {
    var rows := Flatten(metadata, "");
    var lines := if rows == [] then [""] else RowLines(rows);
    assert Join(lines, "\n") == Join(RowLines(rows), "\n");
    assert FormatMetadata(metadata).value == "```\n" + Join(lines, "\n") + "\n```";
    FencedJoin(lines);
    RowLinesNoNewline(rows);
    SplitJoin(["```"] + lines + ["```"], '\n');
  }

  /** The fenced block is the join of the fences and the lines. */
  lemma FencedJoin(lines: seq<string>)
    requires lines != []
    ensures "```\n" + Join(lines, "\n") + "\n```" == Join(["```"] + lines + ["```"], "\n")
  {
    JoinSnoc(["```"] + lines, "```", "\n");
    assert (["```"] + lines)[1..] == lines;
    assert Join(["```"] + lines, "\n") == "```" + "\n" + Join(lines, "\n");
  }

  lemma RowLinesNoNewline(rows: seq<Row>)
    requires forall r :: r in rows ==> '\n' !in r.key && '\n' !in r.value
    ensures var lines := if rows == [] then [""] else RowLines(rows);
      forall i :: 0 <= i < |["```"] + lines + ["```"]| ==> '\n' !in (["```"] + lines + ["```"])[i]
  {
    var lines := if rows == [] then [""] else RowLines(rows);
    var all := ["```"] + lines + ["```"];
    forall i | 0 <= i < |all|
      ensures '\n' !in all[i]
    {
      if 0 < i < |all| - 1 && rows != [] {
        assert all[i] == lines[i - 1] && rows[i - 1] in rows;
      }
    }
  }
}
