/** The backup registry over a bucket listing: the distinct save names, the latest
    archive of one name, and the tree of archives grouped by name. The listing itself
    (`listBackups`, with its region discovery) is an input. */
module Registry {
  import opened Wrappers
  import opened Text
  import opened Seqs
  import opened BackupKey

  /** One entry of a bucket listing: `Key`, `LastModified` (milliseconds) and `Size` (bytes). */
  datatype StoredObject = StoredObject(key: string, lastModified: int, size: nat)

  /** The key of `o` parses to a backup of save name `name`. */
  predicate IsBackupOf(o: StoredObject, name: string) {
    ParseBackupKey(o.key).Some? && ParseBackupKey(o.key).value.name == name
  }

  /** The save names of the parseable keys, in listing order, repeats included. */
  function ParsedNames(objects: seq<StoredObject>): seq<string> {
    if objects == [] then []
    else
      var prev := ParsedNames(objects[..|objects| - 1]);
      match ParseBackupKey(objects[|objects| - 1].key)
      case Some(b) => prev + [b.name]
      case None => prev
  }

  lemma {:induction false} ParsedNamesExactly(objects: seq<StoredObject>, n: string)
    ensures n in ParsedNames(objects) <==> exists o :: o in objects && IsBackupOf(o, n)
  {
    if objects != [] {
      var init, last := objects[..|objects| - 1], objects[|objects| - 1];
      ParsedNamesExactly(init, n);
      assert objects == init + [last];
      assert n in ParsedNames(objects) <==> n in ParsedNames(init) || IsBackupOf(last, n);
    }
  }

  /** What `listBackupNames` returns: each save name once, in order of first appearance. */
  function BackupNames(objects: seq<StoredObject>): seq<string> {
    Distinct(ParsedNames(objects))
  }

  /** The names are distinct, and a name is listed exactly when some key parses to it. */
  lemma {:induction false} BackupNamesExactly(objects: seq<StoredObject>, n: string)
    ensures NoDup(BackupNames(objects))
    ensures n in BackupNames(objects) <==> exists o :: o in objects && IsBackupOf(o, n)
  {
    var p := ParsedNames(objects);
    ParsedNamesExactly(objects, n);
    if n in p {
      var k :| 0 <= k < |p| && p[k] == n;
      assert p[k] in BackupNames(objects);
    }
    if n in BackupNames(objects) {
      var k :| 0 <= k < |BackupNames(objects)| && BackupNames(objects)[k] == n;
      assert BackupNames(objects)[k] in p;
    }
  }

  /** `listBackupNames()`: fills a set while walking the listing; the set's insertion
      order is the order of the result. */
  method ListBackupNames(objects: seq<StoredObject>) returns (names: seq<string>)
    ensures names == BackupNames(objects)
    ensures NoDup(names)
    ensures forall n :: n in names <==> exists o :: o in objects && IsBackupOf(o, n)
  {
    names := [];
    var i := 0;
    while i < |objects|
      invariant 0 <= i <= |objects|
      invariant names == Distinct(ParsedNames(objects[..i]))
    {
      var p := ParseBackupKey(objects[i].key);
      assert objects[..i + 1][..i] == objects[..i];
      if p.Some? {
        DistinctSnoc(ParsedNames(objects[..i]), p.value.name);
        if p.value.name !in names {
          names := names + [p.value.name];
        }
      }
      i := i + 1;
    }
    assert objects[..i] == objects;
    forall n ensures n in names <==> exists o :: o in objects && IsBackupOf(o, n) {
      BackupNamesExactly(objects, n);
    }
    BackupNamesExactly(objects, "");
  }

  /** The listing entries whose key parses to save name `name`, in listing order. */
  function BackupsOf(objects: seq<StoredObject>, name: string): (r: seq<StoredObject>)
    ensures forall o :: o in r <==> o in objects && IsBackupOf(o, name)
    ensures |r| <= |objects|
  {
    if objects == [] then []
    else
      var prev := BackupsOf(objects[..|objects| - 1], name);
      var o := objects[|objects| - 1];
      assert forall x :: x in objects <==> x in objects[..|objects| - 1] || x == o;
      if IsBackupOf(o, name) then prev + [o] else prev
  }

  /** The position of the first entry with the greatest `lastModified`: what a stable
      sort by `lastModified`, newest first, puts at the front. */
  function NewestIndex(cs: seq<StoredObject>): (k: nat)
    requires cs != []
    ensures k < |cs|
    ensures forall j :: 0 <= j < |cs| ==> cs[j].lastModified <= cs[k].lastModified
    ensures forall j :: 0 <= j < k ==> cs[j].lastModified < cs[k].lastModified
  {
    if |cs| == 1 then 0
    else
      var k := NewestIndex(cs[1..]) + 1;
      assert forall j :: 1 <= j < |cs| ==> cs[j] == cs[1..][j - 1];
      if cs[0].lastModified >= cs[k].lastModified then 0 else k
  }

  /** `getLatestBackupFile(name)` over a listing: the key of the most recently modified
      archive of that name, earliest in the listing among equals; `None` when no key
      parses to the name. */
  function LatestBackupKey(objects: seq<StoredObject>, name: string): (r: Option<string>)
    ensures r.None? <==> forall o :: o in objects ==> !IsBackupOf(o, name)
    ensures r.Some? ==> exists o :: o in objects && IsBackupOf(o, name) && o.key == r.value
                          && forall p :: p in objects && IsBackupOf(p, name) ==> p.lastModified <= o.lastModified
  {
    var cs := BackupsOf(objects, name);
    if cs == [] then None
    else
      var k := NewestIndex(cs);
      assert cs[k] in cs;
      assert forall p :: p in cs ==> p.lastModified <= cs[k].lastModified;
      Some(cs[k].key)
  }

  /** The latest key, when there is one, parses back to the name asked for. */
  lemma LatestBackupKeyParses(objects: seq<StoredObject>, name: string)
    requires LatestBackupKey(objects, name).Some?
    ensures ParseBackupKey(LatestBackupKey(objects, name).value).Some?
    ensures ParseBackupKey(LatestBackupKey(objects, name).value).value.name == name
  {
    var o :| o in objects && IsBackupOf(o, name) && o.key == LatestBackupKey(objects, name).value;
  }

  // ---------------------------------------------------------------------------
  // The backup tree

  /** One line item of the tree: the date stamp and the archive size. */
  datatype Item = Item(date: string, size: nat)

  /** One save name with its archives. */
  datatype Group = Group(name: string, items: seq<Item>)

  /** The items of save name `name`, in listing order. */
  function ItemsOf(objects: seq<StoredObject>, name: string): seq<Item> {
    if objects == [] then []
    else
      var prev := ItemsOf(objects[..|objects| - 1], name);
      var o := objects[|objects| - 1];
      match ParseBackupKey(o.key)
      case Some(b) => if b.name == name then prev + [Item(b.date, o.size)] else prev
      case None => prev
  }

  /** Every item of `name` comes from an entry whose key parses to `name` and that date. */
  lemma {:induction false} ItemsOfSource(objects: seq<StoredObject>, name: string, it: Item)
    requires it in ItemsOf(objects, name)
    ensures exists o :: o in objects && ParseBackupKey(o.key) == Some(BackupRef(name, it.date)) && o.size == it.size
  {
    if objects != [] {
      var init := objects[..|objects| - 1];
      if it in ItemsOf(init, name) {
        ItemsOfSource(init, name, it);
        var o :| o in init && ParseBackupKey(o.key) == Some(BackupRef(name, it.date)) && o.size == it.size;
        assert o in objects;
      } else {
        assert it.date == ParseBackupKey(objects[|objects| - 1].key).value.date;
      }
    }
  }

  /** A name no key parses to has no items. */
  lemma {:induction false} ItemsOfUnlisted(objects: seq<StoredObject>, name: string)
    requires name !in ParsedNames(objects)
    ensures ItemsOf(objects, name) == []
  {
    if objects != [] {
      ItemsOfUnlisted(objects[..|objects| - 1], name);
    }
  }

  /** JavaScript's `<` on strings: lexicographic order of the characters. */
  predicate StrLess(a: string, b: string) {
    if a == [] then b != []
    else if b == [] then false
    else a[0] < b[0] || (a[0] == b[0] && StrLess(a[1..], b[1..]))
  }

  /** "Not less than" is transitive. */
  lemma {:induction false} NotLessTransitive(a: string, b: string, c: string)
    requires !StrLess(a, b) && !StrLess(b, c)
    ensures !StrLess(a, c)
  {
    if a != [] && b != [] && c != [] && a[0] == b[0] == c[0] {
      NotLessTransitive(a[1..], b[1..], c[1..]);
    }
  }

  lemma {:induction false} StrLessAsymmetric(a: string, b: string)
    requires StrLess(a, b)
    ensures !StrLess(b, a)
  {
    if a != [] && b != [] && a[0] == b[0] {
      StrLessAsymmetric(a[1..], b[1..]);
    }
  }

  /** Newest first: no item's date is less than a later item's date. */
  predicate DatesDescending(items: seq<Item>) {
    forall i, j :: 0 <= i < j < |items| ==> !StrLess(items[i].date, items[j].date)
  }

  /** Puts `it` in front of the first item whose date is not greater than its own. */
  function InsertByDate(it: Item, items: seq<Item>): seq<Item> {
    if items == [] || !StrLess(it.date, items[0].date) then [it] + items
    else [items[0]] + InsertByDate(it, items[1..])
  }

  /** An item not older than everything after it may go in front of a sorted list. */
  lemma ConsDescending(h: Item, rest: seq<Item>)
    requires DatesDescending(rest)
    requires forall x :: x in rest ==> !StrLess(h.date, x.date)
    ensures DatesDescending([h] + rest)
  {
    var r := [h] + rest;
    forall i, j | 0 <= i < j < |r| ensures !StrLess(r[i].date, r[j].date) {
      if i == 0 {
        assert r[j] == rest[j - 1];
      } else {
        assert r[i] == rest[i - 1] && r[j] == rest[j - 1];
      }
    }
  }

  lemma {:induction false} InsertByDateSorted(it: Item, items: seq<Item>)
    requires DatesDescending(items)
    ensures DatesDescending(InsertByDate(it, items))
    ensures multiset(InsertByDate(it, items)) == multiset(items) + multiset{it}
  {
    if items == [] || !StrLess(it.date, items[0].date) {
      forall x | x in items
        ensures !StrLess(it.date, x.date)
      {
        var j :| 0 <= j < |items| && items[j] == x;
        if j > 0 {
          NotLessTransitive(it.date, items[0].date, items[j].date);
        }
      }
      ConsDescending(it, items);
    } else {
      var h, tail := items[0], items[1..];
      assert items == [h] + tail;
      InsertByDateSorted(it, tail);
      var rest := InsertByDate(it, tail);
      StrLessAsymmetric(it.date, h.date);
      forall x | x in rest ensures !StrLess(h.date, x.date) {
        assert x in multiset(rest);
        if x != it {
          assert x in tail;
          var m :| 0 <= m < |tail| && tail[m] == x;
          assert items[m + 1] == x;
        }
      }
      assert DatesDescending(tail);
      ConsDescending(h, rest);
    }
  }

  /** `list.sort((a, b) => (a.date < b.date ? 1 : -1))`, as insertion sort on values. */
  function SortByDateDesc(items: seq<Item>): seq<Item> {
    if items == [] then [] else InsertByDate(items[0], SortByDateDesc(items[1..]))
  }

  /** The sorted list is newest first and holds the same items. */
  lemma {:induction false} SortByDateDescCorrect(items: seq<Item>)
    ensures DatesDescending(SortByDateDesc(items))
    ensures multiset(SortByDateDesc(items)) == multiset(items)
  {
    if items != [] {
      assert items == [items[0]] + items[1..];
      SortByDateDescCorrect(items[1..]);
      InsertByDateSorted(items[0], SortByDateDesc(items[1..]));
    }
  }

  /** The tree `formatBackupTree` lays out: one group per save name, in order of first
      appearance, each with its archives newest first. */
  function BackupTreeSpec(objects: seq<StoredObject>): seq<Group> {
    var names := BackupNames(objects);
    seq(|names|, k requires 0 <= k < |names| => Group(names[k], SortByDateDesc(ItemsOf(objects, names[k]))))
  }

  /** One more listing entry leaves the items of every other name alone. */
  lemma ItemsOfSnocOther(objects: seq<StoredObject>, o: StoredObject, name: string)
    requires !IsBackupOf(o, name)
    ensures ItemsOf(objects + [o], name) == ItemsOf(objects, name)
  {
    assert (objects + [o])[..|objects|] == objects;
  }

  /** One more listing entry adds its item at the end of its own name's list. */
  lemma ItemsOfSnocOwn(objects: seq<StoredObject>, o: StoredObject, b: BackupRef)
    requires ParseBackupKey(o.key) == Some(b)
    ensures ItemsOf(objects + [o], b.name) == ItemsOf(objects, b.name) + [Item(b.date, o.size)]
  {
    assert (objects + [o])[..|objects|] == objects;
  }

  /** One more listing entry adds its name at the end, if it parses and is new. */
  lemma BackupNamesSnoc(objects: seq<StoredObject>, o: StoredObject)
    ensures ParseBackupKey(o.key).None? ==> BackupNames(objects + [o]) == BackupNames(objects)
    ensures ParseBackupKey(o.key).Some? ==>
      var n := ParseBackupKey(o.key).value.name;
      BackupNames(objects + [o]) == if n in BackupNames(objects) then BackupNames(objects) else BackupNames(objects) + [n]
  {
    assert (objects + [o])[..|objects|] == objects;
    if ParseBackupKey(o.key).Some? {
      DistinctSnoc(ParsedNames(objects), ParseBackupKey(o.key).value.name);
    }
  }

  /** The state of the first loop of `formatBackupTree` after the listing `prefix`. */
  ghost predicate Collected(prefix: seq<StoredObject>, order: seq<string>, byName: map<string, seq<Item>>) {
    && order == BackupNames(prefix)
    && (forall n :: n in byName <==> n in order)
    && (forall n :: n in byName ==> byName[n] == ItemsOf(prefix, n))
  }

  lemma BackupNamesSnocNew(prefix: seq<StoredObject>, o: StoredObject, b: BackupRef)
    requires ParseBackupKey(o.key) == Some(b) && b.name !in BackupNames(prefix)
    ensures BackupNames(prefix + [o]) == BackupNames(prefix) + [b.name]
  {
    BackupNamesSnoc(prefix, o);
  }

  lemma BackupNamesSnocSeen(prefix: seq<StoredObject>, o: StoredObject, b: BackupRef)
    requires ParseBackupKey(o.key) == Some(b) && b.name in BackupNames(prefix)
    ensures BackupNames(prefix + [o]) == BackupNames(prefix)
  {
    BackupNamesSnoc(prefix, o);
  }

  /** The first entry of a name gives it a one-item list. */
  lemma ItemsOfFirst(prefix: seq<StoredObject>, o: StoredObject, b: BackupRef)
    requires ParseBackupKey(o.key) == Some(b) && b.name !in BackupNames(prefix)
    ensures ItemsOf(prefix + [o], b.name) == [Item(b.date, o.size)]
  {
    ItemsOfUnlisted(prefix, b.name);
    ItemsOfSnocOwn(prefix, o, b);
  }

  /** A new name: its list starts with this entry's item and the name joins the order. */
  lemma CollectFirst(prefix: seq<StoredObject>, o: StoredObject, b: BackupRef, order: seq<string>, byName: map<string, seq<Item>>)
    requires Collected(prefix, order, byName)
    requires ParseBackupKey(o.key) == Some(b) && b.name !in byName
    ensures Collected(prefix + [o], order + [b.name], byName[b.name := [Item(b.date, o.size)]])
  {
    BackupNamesSnocNew(prefix, o, b);
    var m := byName[b.name := [Item(b.date, o.size)]];
    forall n | n in m ensures m[n] == ItemsOf(prefix + [o], n) {
      if n == b.name {
        ItemsOfFirst(prefix, o, b);
      } else {
        ItemsOfSnocOther(prefix, o, n);
      }
    }
  }

  /** A name seen before: this entry's item goes at the end of its list. */
  lemma CollectAgain(prefix: seq<StoredObject>, o: StoredObject, b: BackupRef, order: seq<string>, byName: map<string, seq<Item>>)
    requires Collected(prefix, order, byName)
    requires ParseBackupKey(o.key) == Some(b) && b.name in byName
    ensures Collected(prefix + [o], order, byName[b.name := byName[b.name] + [Item(b.date, o.size)]])
  {
    BackupNamesSnocSeen(prefix, o, b);
    var m := byName[b.name := byName[b.name] + [Item(b.date, o.size)]];
    forall n | n in m ensures m[n] == ItemsOf(prefix + [o], n) {
      if n == b.name {
        ItemsOfSnocOwn(prefix, o, b);
      } else {
        ItemsOfSnocOther(prefix, o, n);
      }
    }
  }

  /** A key that does not parse changes nothing. */
  lemma CollectSkip(prefix: seq<StoredObject>, o: StoredObject, order: seq<string>, byName: map<string, seq<Item>>)
    requires Collected(prefix, order, byName)
    requires ParseBackupKey(o.key).None?
    ensures Collected(prefix + [o], order, byName)
  {
    BackupNamesSnoc(prefix, o);
    forall n | n in byName ensures byName[n] == ItemsOf(prefix + [o], n) {
      ItemsOfSnocOther(prefix, o, n);
    }
  }

  lemma PrefixSnoc(objects: seq<StoredObject>, i: nat)
    requires i < |objects|
    ensures objects[..i + 1] == objects[..i] + [objects[i]]
  {
  }

  /** The first loop of `formatBackupTree`: a map from save name to its items, filled
      while walking the listing, and the order in which names were first added. */
  method CollectByName(objects: seq<StoredObject>) returns (order: seq<string>, byName: map<string, seq<Item>>)
    ensures order == BackupNames(objects)
    ensures forall n :: n in byName <==> n in order
    ensures forall n :: n in byName ==> byName[n] == ItemsOf(objects, n)
  {
    byName := map[];
    order := [];
    var i := 0;
    while i < |objects|
      invariant 0 <= i <= |objects|
      invariant Collected(objects[..i], order, byName)
    {
      var o := objects[i];
      PrefixSnoc(objects, i);
      var p := ParseBackupKey(o.key);
      if p.Some? {
        var name := p.value.name;
        var item := Item(p.value.date, o.size);
        if name !in byName {
          // a new name: its list starts with this item and the name joins the order
          CollectFirst(objects[..i], o, p.value, order, byName);
          order := order + [name];
          byName := byName[name := [item]];
        } else {
          CollectAgain(objects[..i], o, p.value, order, byName);
          byName := byName[name := byName[name] + [item]];
        }
      } else {
        CollectSkip(objects[..i], o, order, byName);
      }
      i := i + 1;
    }
    assert objects[..i] == objects;
  }

  /** The grouping of `formatBackupTree`: the names in order of first appearance, each
      with its list sorted newest first. */
  method BackupTree(objects: seq<StoredObject>) returns (groups: seq<Group>)
    ensures groups == BackupTreeSpec(objects)
  {
    var order, byName := CollectByName(objects);
    groups := [];
    for k := 0 to |order|
      invariant |groups| == k
      invariant forall j :: 0 <= j < k ==> groups[j] == Group(order[j], SortByDateDesc(byName[order[j]]))
    {
      groups := groups + [Group(order[k], SortByDateDesc(byName[order[k]]))];
    }
  }

  function GroupNames(groups: seq<Group>): (r: seq<string>)
    ensures |r| == |groups| && forall k :: 0 <= k < |groups| ==> r[k] == groups[k].name
  {
    seq(|groups|, k requires 0 <= k < |groups| => groups[k].name)
  }

  /** The tree has one group per save name, and its names are exactly the distinct
      names the listing parses to, in order of first appearance. */
  lemma BackupTreeNames(objects: seq<StoredObject>)
    ensures GroupNames(BackupTreeSpec(objects)) == BackupNames(objects)
    ensures NoDup(GroupNames(BackupTreeSpec(objects)))
  {
    BackupNamesExactly(objects, "");
  }

  /** Each group lists the archives of its own name, newest first: every item's date
      comes from a key that parses to the group's name, and the group holds exactly
      the items of that name. */
  lemma BackupTreeGroup(objects: seq<StoredObject>, k: nat, it: Item)
    requires k < |BackupTreeSpec(objects)|
    ensures DatesDescending(BackupTreeSpec(objects)[k].items)
    ensures multiset(BackupTreeSpec(objects)[k].items) == multiset(ItemsOf(objects, BackupTreeSpec(objects)[k].name))
    ensures it in BackupTreeSpec(objects)[k].items ==>
      exists o :: o in objects && ParseBackupKey(o.key) == Some(BackupRef(BackupTreeSpec(objects)[k].name, it.date))
  {
    var g := BackupTreeSpec(objects)[k];
    SortByDateDescCorrect(ItemsOf(objects, g.name));
    if it in g.items {
      assert it in multiset(g.items);
      ItemsOfSource(objects, g.name, it);
    }
  }

  /** `formatBackupTree(objects)` as text, given the groups: a fenced block with each name
      on a line and one indented line per archive. The megabyte figure is rendered by
      `mbText`, which stands for `(size / 1024 / 1024).toFixed(1)`. */
  function RenderTree(groups: seq<Group>, mbText: nat -> string): (text: string)
    ensures |text| >= 8 && text[..4] == "```\n" && text[|text| - 4..] == "\n```"
  {
    var body := Join(TreeLines(groups, mbText), "\n");
    var text := "```\n" + body + "\n```";
    assert text[..4] == "```\n";
    assert text[|text| - 4..] == "\n```";
    text
  }

  function TreeLines(groups: seq<Group>, mbText: nat -> string): seq<string> {
    if groups == [] then []
    else
      [groups[0].name] + ItemLines(groups[0].items, mbText) + TreeLines(groups[1..], mbText)
  }

  function ItemLines(items: seq<Item>, mbText: nat -> string): seq<string> {
    if items == [] then []
    else ["  - " + items[0].date + " (" + mbText(items[0].size) + " MB)"] + ItemLines(items[1..], mbText)
  }
}
