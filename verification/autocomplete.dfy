/** The autocomplete option lists of the `start`, `save` and `describe` commands: prefix
    filters over the backup registry, capped at 25 options (24 names for `save`), with
    de-duplication and the typed text offered first where the command does so. */
module Autocomplete {
  import opened Seqs
  import opened BackupKey
  import opened Registry

  /** One option of an autocomplete response: the label shown and the value sent back. */
  datatype Choice = Choice(name: string, value: string)

  /** Discord accepts at most this many options. */
  const MaxChoices: nat := 25

  /** `names.filter(n => n.startsWith(focused))`. */
  function Matching(names: seq<string>, focused: string): (r: seq<string>)
    ensures |r| <= |names|
    ensures forall n :: n in r <==> n in names && focused <= n
  {
    if names == [] then []
    else
      var init := Matching(names[..|names| - 1], focused);
      var last := names[|names| - 1];
      assert names == names[..|names| - 1] + [last];
      if focused <= last then init + [last] else init
  }

  /** The filter keeps the order of the list: filtering a concatenation is concatenating
      the filtered parts. */
  lemma {:induction false} MatchingAppend(a: seq<string>, b: seq<string>, focused: string)
    ensures Matching(a + b, focused) == Matching(a, focused) + Matching(b, focused)
  {
    if b != [] {
      var init, last := b[..|b| - 1], b[|b| - 1];
      assert (a + b)[..|a + b| - 1] == a + init;
      MatchingAppend(a, init, focused);
    } else {
      assert a + b == a;
    }
  }

  /** A list without repeats stays without repeats when filtered. */
  lemma {:induction false} MatchingNoDup(names: seq<string>, focused: string)
    requires NoDup(names)
    ensures NoDup(Matching(names, focused))
  {
    if names != [] {
      var init, last := names[..|names| - 1], names[|names| - 1];
      assert NoDup(init) by {
        forall i, j | 0 <= i < j < |init| ensures init[i] != init[j] {
          assert init[i] == names[i] && init[j] == names[j];
        }
      }
      MatchingNoDup(init, focused);
      assert last !in init by {
        forall i | 0 <= i < |init| ensures init[i] != last {
          assert init[i] == names[i];
        }
      }
    }
  }

  /** `.map(n => ({ name: n, value: n }))`. */
  function SameNameChoices(names: seq<string>): (cs: seq<Choice>)
    ensures |cs| == |names|
    ensures forall i :: 0 <= i < |cs| ==> cs[i] == Choice(names[i], names[i])
  {
    seq(|names|, i requires 0 <= i < |names| => Choice(names[i], names[i]))
  }

  /** Every name has its option. */
  lemma SameNameChoicesHas(names: seq<string>)
    ensures forall n :: n in names ==> Choice(n, n) in SameNameChoices(names)
  {
    forall n | n in names
      ensures Choice(n, n) in SameNameChoices(names)
    {
      var k :| 0 <= k < |names| && names[k] == n;
      assert SameNameChoices(names)[k] == Choice(n, n);
    }
  }

  function Values(cs: seq<Choice>): (vs: seq<string>)
    ensures |vs| == |cs|
    ensures forall i :: 0 <= i < |cs| ==> vs[i] == cs[i].value
  {
    seq(|cs|, i requires 0 <= i < |cs| => cs[i].value)
  }

  // ---------------------------------------------------------------------------
  // commands/start.js: save names

  /** The options of `start`'s name argument: the save names that start with the typed
      text, in listing order, at most 25, each shown as itself. */
  function StartNameOptions(names: seq<string>, focused: string): (cs: seq<Choice>)
    ensures |cs| <= MaxChoices
    ensures forall i :: 0 <= i < |cs| ==>
      cs[i].name == cs[i].value && focused <= cs[i].value && cs[i].value in names
    ensures Values(cs) <= Matching(names, focused)
  {
    var m := Matching(names, focused);
    var filtered := Take(m, MaxChoices);
    var cs := SameNameChoices(filtered);
    assert Values(cs) == filtered;
    assert forall i :: 0 <= i < |filtered| ==> filtered[i] == m[i] && m[i] in m;
    cs
  }

  /** No matching name is left out unless the 25 options are used up. */
  lemma StartNameOptionsComplete(names: seq<string>, focused: string, n: string)
    requires n in names && focused <= n
    requires |StartNameOptions(names, focused)| < MaxChoices
    ensures Choice(n, n) in StartNameOptions(names, focused)
  {
    var cs := StartNameOptions(names, focused);
    var m := Matching(names, focused);
    assert Values(cs) == Take(m, MaxChoices) == m;
    var k :| 0 <= k < |m| && m[k] == n;
    assert cs[k] == Choice(n, n);
  }

  // ---------------------------------------------------------------------------
  // commands/start.ts: raw keys with `name.date` labels

  /** `p ? `${p.name}.${p.date}` : k`. */
  function KeyLabel(key: string): (shown: string)
    ensures ParseBackupKey(key).Some? ==>
      shown == ParseBackupKey(key).value.name + "." + ParseBackupKey(key).value.date
    ensures ParseBackupKey(key).None? ==> shown == key
  {
    match ParseBackupKey(key)
    case Some(p) => p.name + "." + p.date
    case None => key
  }

  /** For a backup key the label is the key without its archive suffix. */
  lemma KeyLabelIsStem(key: string)
    requires ParseBackupKey(key).Some?
    ensures KeyLabel(key) + ArchiveSuffix == key
  {
    var p := ParseBackupKey(key).value;
    assert KeyLabel(key) + ArchiveSuffix == p.name + "." + p.date + ArchiveSuffix;
  }

  /** `backups.map(o => o.Key)`. */
  function Keys(objects: seq<StoredObject>): (ks: seq<string>)
    ensures |ks| == |objects|
    ensures forall i :: 0 <= i < |objects| ==> ks[i] == objects[i].key
  {
    seq(|objects|, i requires 0 <= i < |objects| => objects[i].key)
  }

  /** The options of the TypeScript `start`: listed keys that start with the typed text,
      in listing order, at most 25; the value is the key unchanged, the label its
      `name.date` form when it parses. */
  function StartKeyOptions(objects: seq<StoredObject>, focused: string): (cs: seq<Choice>)
    ensures |cs| <= MaxChoices
    ensures Values(cs) == Take(Matching(Keys(objects), focused), MaxChoices)
    ensures forall i :: 0 <= i < |cs| ==>
      cs[i].name == KeyLabel(cs[i].value) && focused <= cs[i].value && cs[i].value in Keys(objects)
  {
    var m := Matching(Keys(objects), focused);
    var filtered := Take(m, MaxChoices);
    var cs := seq(|filtered|, i requires 0 <= i < |filtered| => Choice(KeyLabel(filtered[i]), filtered[i]));
    assert Values(cs) == filtered;
    assert forall i :: 0 <= i < |filtered| ==> filtered[i] == m[i] && m[i] in m;
    cs
  }

  // ---------------------------------------------------------------------------
  // commands/save.js and commands/save.ts: the typed text first

  /** `filtered.filter(n => n !== focused)`. */
  function Without(names: seq<string>, x: string): (r: seq<string>)
    ensures |r| <= |names|
    ensures forall n :: n in r <==> n in names && n != x
  {
    if names == [] then []
    else
      var init := Without(names[..|names| - 1], x);
      var last := names[|names| - 1];
      assert names == names[..|names| - 1] + [last];
      if last != x then init + [last] else init
  }

  lemma {:induction false} WithoutNoDup(names: seq<string>, x: string)
    requires NoDup(names)
    ensures NoDup(Without(names, x))
  {
    if names != [] {
      var init, last := names[..|names| - 1], names[|names| - 1];
      assert NoDup(init) by {
        forall i, j | 0 <= i < j < |init| ensures init[i] != init[j] {
          assert init[i] == names[i] && init[j] == names[j];
        }
      }
      WithoutNoDup(init, x);
      assert last !in init by {
        forall i | 0 <= i < |init| ensures init[i] != last {
          assert init[i] == names[i];
        }
      }
    }
  }

  /** The names `save` offers before they become options: at most 24 matching save
      names; when text is typed it comes first, followed by those names other than
      itself. */
  function SaveList(names: seq<string>, focused: string): (options: seq<string>)
    ensures |options| <= MaxChoices
    ensures forall n :: n in options ==> focused <= n && (n == focused || n in names)
    ensures focused != "" ==> |options| >= 1 && options[0] == focused
    ensures forall n :: n in Take(Matching(names, focused), MaxChoices - 1) ==> n in options
  {
    var m := Matching(names, focused);
    var filtered := Take(m, MaxChoices - 1);
    assert forall i :: 0 <= i < |filtered| ==> filtered[i] == m[i] && m[i] in m;
    if focused != "" then [focused] + Without(filtered, focused) else filtered
  }

  /** The options of `save`'s name argument: the list above, each shown as itself, cut
      at 25. */
  function SaveOptions(names: seq<string>, focused: string): (cs: seq<Choice>)
    ensures |cs| <= MaxChoices
    ensures forall i :: 0 <= i < |cs| ==>
      cs[i].name == cs[i].value && focused <= cs[i].value && (cs[i].value == focused || cs[i].value in names)
    ensures focused != "" ==> |cs| >= 1 && cs[0] == Choice(focused, focused)
    ensures forall n :: n in Take(Matching(names, focused), MaxChoices - 1) ==> Choice(n, n) in cs
  {
    var options := SaveList(names, focused);
    var cs := Take(SameNameChoices(options), MaxChoices);
    assert cs == SameNameChoices(options);
    assert forall i :: 0 <= i < |options| ==> options[i] in options;
    SameNameChoicesHas(options);
    cs
  }

  /** Cutting at 25 never drops a name: the options are exactly the listed names. */
  lemma SaveOptionsValues(names: seq<string>, focused: string)
    ensures Values(SaveOptions(names, focused)) == SaveList(names, focused)
  {
    var options := SaveList(names, focused);
    assert Take(SameNameChoices(options), MaxChoices) == SameNameChoices(options);
    assert Values(SameNameChoices(options)) == options;
  }

  /** A name is offered exactly when it is the typed text or one of the first 24 save
      names that start with it. */
  lemma SaveOptionsExactly(names: seq<string>, focused: string, n: string)
    ensures Choice(n, n) in SaveOptions(names, focused)
      <==> (focused != "" && n == focused) || n in Take(Matching(names, focused), MaxChoices - 1)
  {
    var filtered := Take(Matching(names, focused), MaxChoices - 1);
    var options := SaveList(names, focused);
    var cs := SaveOptions(names, focused);
    SaveOptionsValues(names, focused);
    assert n in options <==> (focused != "" && n == focused) || n in filtered by {
      if focused != "" {
        assert options == [focused] + Without(filtered, focused);
      }
    }
    if n in options {
      var k :| 0 <= k < |options| && options[k] == n;
      assert cs[k] == Choice(n, n);
    }
    if Choice(n, n) in cs {
      var k :| 0 <= k < |cs| && cs[k] == Choice(n, n);
      assert options[k] == n;
    }
  }

  /** Typed text is offered once: every option after the first differs from it. */
  lemma SaveOptionsFocusedOnce(names: seq<string>, focused: string, j: nat)
    requires focused != ""
    requires 1 <= j < |SaveOptions(names, focused)|
    ensures SaveOptions(names, focused)[j].value != focused
  {
    var filtered := Take(Matching(names, focused), MaxChoices - 1);
    var w := Without(filtered, focused);
    SaveOptionsValues(names, focused);
    assert SaveList(names, focused) == [focused] + w;
    assert SaveOptions(names, focused)[j].value == w[j - 1];
    assert w[j - 1] in w;
  }

  /** With nothing typed, the options are the first 24 names. */
  lemma SaveOptionsEmptyFocus(names: seq<string>)
    ensures Values(SaveOptions(names, "")) == Take(names, MaxChoices - 1)
  {
    MatchingEverything(names);
    SaveOptionsValues(names, "");
  }

  /** Every name starts with the empty text. */
  lemma {:induction false} MatchingEverything(names: seq<string>)
    ensures Matching(names, "") == names
  {
    if names != [] {
      MatchingEverything(names[..|names| - 1]);
      assert names == names[..|names| - 1] + [names[|names| - 1]];
    }
  }

  /** Over distinct save names the options have no repeats. */
  lemma SaveOptionsNoDup(names: seq<string>, focused: string)
    requires NoDup(names)
    ensures NoDup(Values(SaveOptions(names, focused)))
  {
    var m := Matching(names, focused);
    MatchingNoDup(names, focused);
    var filtered := Take(m, MaxChoices - 1);
    TakeNoDup(m, MaxChoices - 1);
    SaveOptionsValues(names, focused);
    if focused != "" {
      var w := Without(filtered, focused);
      WithoutNoDup(filtered, focused);
      var options := [focused] + w;
      assert SaveList(names, focused) == options;
      forall i, j | 0 <= i < j < |options| ensures options[i] != options[j] {
        assert options[j] == w[j - 1] && w[j - 1] in w;
        if i > 0 {
          assert options[i] == w[i - 1];
        }
      }
    }
  }

  // ---------------------------------------------------------------------------
  // commands/describe.js: `name.date` of every archive, once

  /** The `name.date` stems of the parseable keys, in listing order, repeats included. */
  function Stems(objects: seq<StoredObject>): seq<string> {
    if objects == [] then []
    else
      var prev := Stems(objects[..|objects| - 1]);
      var key := objects[|objects| - 1].key;
      if ParseBackupKey(key).Some? then prev + [KeyLabel(key)] else prev
  }

  /** `key` is an archive whose `name.date` stem is `s`. */
  predicate IsArchiveOf(key: string, s: string) {
    ParseBackupKey(key).Some? && KeyLabel(key) == s
  }

  /** A stem is listed exactly when some listed key is an archive with that stem. */
  lemma {:induction false} StemsExactly(objects: seq<StoredObject>, s: string)
    ensures s in Stems(objects) <==> exists o :: o in objects && IsArchiveOf(o.key, s)
  {
    if objects != [] {
      var init, last := objects[..|objects| - 1], objects[|objects| - 1];
      StemsExactly(init, s);
      assert objects == init + [last];
      if s in Stems(objects) {
        if s in Stems(init) {
          var o :| o in init && IsArchiveOf(o.key, s);
          assert o in objects;
        } else {
          assert IsArchiveOf(last.key, s);
          assert last in objects;
        }
      } else {
        assert s !in Stems(init);
        assert !IsArchiveOf(last.key, s);
        forall o | o in objects ensures !IsArchiveOf(o.key, s) {
          if o != last {
            assert o in init;
          }
        }
      }
    }
  }

  /** `describe`'s suggestions: the distinct stems in first-seen order that start with
      the typed text, at most 25, each shown as itself. */
  function DescribeChoices(objects: seq<StoredObject>, focused: string): (cs: seq<Choice>)
    ensures |cs| <= MaxChoices
    ensures forall i :: 0 <= i < |cs| ==>
      cs[i].name == cs[i].value && focused <= cs[i].value && cs[i].value in Stems(objects)
  {
    var m := Matching(Distinct(Stems(objects)), focused);
    var filtered := Take(m, MaxChoices);
    assert forall i :: 0 <= i < |filtered| ==> filtered[i] == m[i] && m[i] in m;
    SameNameChoices(filtered)
  }

  /** Each suggestion is offered once. */
  lemma DescribeChoicesNoDup(objects: seq<StoredObject>, focused: string)
    ensures NoDup(Values(DescribeChoices(objects, focused)))
  {
    var m := Matching(Distinct(Stems(objects)), focused);
    MatchingNoDup(Distinct(Stems(objects)), focused);
    TakeNoDup(m, MaxChoices);
    assert Values(DescribeChoices(objects, focused)) == Take(m, MaxChoices);
  }

  /** Every archive whose stem starts with the typed text is suggested, as long as the
      suggestions were not cut at 25. */
  lemma DescribeChoicesComplete(objects: seq<StoredObject>, focused: string, o: StoredObject)
    requires o in objects && ParseBackupKey(o.key).Some? && focused <= KeyLabel(o.key)
    requires |DescribeChoices(objects, focused)| < MaxChoices
    ensures Choice(KeyLabel(o.key), KeyLabel(o.key)) in DescribeChoices(objects, focused)
  {
    var s := KeyLabel(o.key);
    var d := Distinct(Stems(objects));
    StemsExactly(objects, s);
    assert IsArchiveOf(o.key, s);
    var j :| 0 <= j < |Stems(objects)| && Stems(objects)[j] == s;
    assert s in d;
    var m := Matching(d, focused);
    var cs := DescribeChoices(objects, focused);
    assert Values(cs) == Take(m, MaxChoices) == m;
    var k :| 0 <= k < |m| && m[k] == s;
    assert cs[k] == Choice(s, s);
  }

  /** Each suggestion names an archive in the listing: with the archive suffix put back
      it is a listed key that parses. */
  lemma DescribeChoicesAreArchives(objects: seq<StoredObject>, focused: string, c: Choice)
    requires c in DescribeChoices(objects, focused)
    ensures exists o :: o in objects && ParseBackupKey(o.key).Some? && c.value + ArchiveSuffix == o.key
  {
    StemsExactly(objects, c.value);
    var o :| o in objects && IsArchiveOf(o.key, c.value);
    KeyLabelIsStem(o.key);
  }

  /** `describe`'s autocomplete handler: walks the listing adding each parseable key's
      `name.date` to a set, then keeps those that start with the typed text. */
  method DescribeOptions(objects: seq<StoredObject>, focused: string) returns (cs: seq<Choice>)
    ensures cs == DescribeChoices(objects, focused)
  {
    var names: seq<string> := [];
    var i := 0;
    while i < |objects|
      invariant 0 <= i <= |objects|
      invariant names == Distinct(Stems(objects[..i]))
    {
      var p := ParseBackupKey(objects[i].key);
      assert objects[..i + 1][..i] == objects[..i];
      if p.Some? {
        var stem := p.value.name + "." + p.value.date;
        DistinctSnoc(Stems(objects[..i]), stem);
        if stem !in names {
          names := names + [stem];
        }
      }
      i := i + 1;
    }
    assert objects[..i] == objects;
    var filtered := Take(Matching(names, focused), MaxChoices);
    cs := SameNameChoices(filtered);
  }
}
