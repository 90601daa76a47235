/** Object-store key listings: byte-wise lexicographic order, the sorted listing that
    `listS3Keys` returns, and the grouping of a sorted listing into staging entries. */
module Listing {

  /** Go's `<` on strings: the first differing character decides, a proper prefix is smaller. */
  predicate Less(a: string, b: string) {
    if b == "" then false
    else if a == "" then true
    else if a[0] != b[0] then a[0] < b[0]
    else Less(a[1..], b[1..])
  }

  ghost predicate Ascending(keys: seq<string>) {
    forall i, j :: 0 <= i < j < |keys| ==> Less(keys[i], keys[j])
  }

  lemma {:induction false} LessTransitive(a: string, b: string, c: string)
    requires Less(a, b) && Less(b, c)
    ensures Less(a, c)
    decreases |a|
  {
    if a != "" && a[0] == b[0] && b[0] == c[0] {
      LessTransitive(a[1..], b[1..], c[1..]);
    }
  }

  lemma {:induction false} LessTotal(a: string, b: string)
    ensures Less(a, b) || a == b || Less(b, a)
    ensures !(Less(a, b) && Less(b, a)) && (Less(a, b) ==> a != b)
    decreases |a|
  {
    if a != "" && b != "" && a[0] == b[0] {
      LessTotal(a[1..], b[1..]);
      assert a == [a[0]] + a[1..] && b == [b[0]] + b[1..];
    }
  }

  /** Keys below one prefix are contiguous in byte order: nothing foreign sorts between two of them. */
  lemma {:induction false} PrefixContiguous(p: string, a: string, b: string, c: string)
    requires p <= a && p <= c
    requires Less(a, b) && Less(b, c)
    ensures p <= b
    decreases |p|
  {
    if p != "" {
      assert p[0] == a[0] == c[0];
      PrefixContiguous(p[1..], a[1..], b[1..], c[1..]);
      assert p == [p[0]] + p[1..] && b == [b[0]] + b[1..];
    }
  }

  /** Position of the first '/', or the length when there is none. */
  function FirstSlash(s: string): (n: nat)
    ensures n <= |s|
    ensures forall i :: 0 <= i < n ==> s[i] != '/'
    ensures n < |s| ==> s[n] == '/'
  {
    if s == "" || s[0] == '/' then 0 else 1 + FirstSlash(s[1..])
  }

  /** `strings.SplitN(rel, "/", 2)` has two parts exactly when there is a slash. */
  predicate HasSlash(rel: string) {
    FirstSlash(rel) < |rel|
  }

  /** The directory part of a key below the staging root, with its trailing slash. */
  function PrefixOf(rel: string): (p: string)
    requires HasSlash(rel)
    ensures p <= rel && IsEntryPrefix(p)
  {
    FirstSlashUnique(rel[..FirstSlash(rel) + 1], FirstSlash(rel));
    rel[..FirstSlash(rel) + 1]
  }

  /** A directory name followed by its only slash. */
  predicate IsEntryPrefix(p: string) {
    |p| > 0 && FirstSlash(p) == |p| - 1
  }

  lemma FirstSlashUnique(s: string, n: nat)
    requires n < |s| && s[n] == '/'
    requires forall i :: 0 <= i < n ==> s[i] != '/'
    ensures FirstSlash(s) == n
  {
  }

  /** Carrying an entry prefix is the same as having that directory. */
  lemma PrefixIffDirectory(rel: string, p: string)
    requires IsEntryPrefix(p)
    ensures p <= rel <==> HasSlash(rel) && PrefixOf(rel) == p
  {
    if p <= rel {
      FirstSlashUnique(rel, |p| - 1);
    }
  }

  // ----- sorted listing -----

  /** Insertion into an ascending key sequence; an existing key is kept once. */
  function InsertKey(keys: seq<string>, k: string): (r: seq<string>)
    ensures forall x :: x in r <==> x in keys || x == k
  {
    if keys == [] then [k]
    else if k == keys[0] then keys
    else if Less(k, keys[0]) then [k] + keys
    else
      assert keys == [keys[0]] + keys[1..];
      [keys[0]] + InsertKey(keys[1..], k)
  }

  lemma {:induction false} InsertKeyAscending(keys: seq<string>, k: string)
    requires Ascending(keys)
    ensures Ascending(InsertKey(keys, k))
    decreases |keys|
  {
    if keys == [] || k == keys[0] {
    } else if Less(k, keys[0]) {
      forall i | 0 <= i < |keys| ensures Less(k, keys[i]) {
        if i > 0 { LessTransitive(k, keys[0], keys[i]); }
      }
    } else {
      LessTotal(k, keys[0]);
      InsertKeyAscending(keys[1..], k);
      var tail := InsertKey(keys[1..], k);
      forall j | 0 <= j < |tail| ensures Less(keys[0], tail[j]) {
        assert tail[j] in tail;
      }
    }
  }

  /** `listS3Keys`: the keys of a page listing, in byte order. */
  method SortKeys(found: set<string>) returns (keys: seq<string>)
    ensures Ascending(keys)
    ensures forall k :: k in keys <==> k in found
  {
    keys := [];
    var rest := found;
    while rest != {}
      invariant rest <= found
      invariant Ascending(keys)
      invariant forall k :: k in keys <==> k in found - rest
      decreases |rest|
    {
      var k :| k in rest;
      InsertKeyAscending(keys, k);
      keys := InsertKey(keys, k);
      rest := rest - {k};
    }
  }

  // ----- grouping -----

  const FINISH: string := "finish.json"

  /** parquet2PCStagingEntry */
  datatype Entry = Entry(prefix: string, finished: bool)

  /** The directories that occur in a listing. */
  function Directories(keys: seq<string>): set<string> {
    if keys == [] then {}
    else
      var key := keys[|keys| - 1];
      Directories(keys[..|keys| - 1]) + (if HasSlash(key) then {PrefixOf(key)} else {})
  }

  function Prefixes(entries: seq<Entry>): set<string> {
    if entries == [] then {} else Prefixes(entries[..|entries| - 1]) + {entries[|entries| - 1].prefix}
  }

  ghost predicate DistinctPrefixes(entries: seq<Entry>) {
    forall i, j :: 0 <= i < j < |entries| ==> entries[i].prefix != entries[j].prefix
  }

  ghost predicate FinishedRight(entries: seq<Entry>, keys: seq<string>) {
    forall i :: 0 <= i < |entries| ==>
      && IsEntryPrefix(entries[i].prefix)
      && (entries[i].finished <==> entries[i].prefix + FINISH in keys)
  }

  /** One entry per directory, marked finished exactly when the directory holds finish.json. */
  ghost predicate GroupsKeys(entries: seq<Entry>, keys: seq<string>) {
    Prefixes(entries) == Directories(keys) && DistinctPrefixes(entries) && FinishedRight(entries, keys)
  }

  lemma {:induction false} EntryPrefixListed(entries: seq<Entry>, i: nat)
    requires i < |entries|
    ensures entries[i].prefix in Prefixes(entries)
    decreases |entries|
  {
    if i < |entries| - 1 { EntryPrefixListed(entries[..|entries| - 1], i); }
  }

  lemma {:induction false} KeyDirectoryListed(keys: seq<string>, i: nat)
    requires i < |keys| && HasSlash(keys[i])
    ensures PrefixOf(keys[i]) in Directories(keys)
    decreases |keys|
  {
    if i < |keys| - 1 { KeyDirectoryListed(keys[..|keys| - 1], i); }
  }

  /** In an ascending listing, a directory other than the last one seen has not been seen before. */
  lemma {:induction false} NewDirectoryIsNew(keys: seq<string>, i: nat, last: nat, n: nat)
    requires Ascending(keys) && n <= i < |keys| && last < i
    requires HasSlash(keys[i]) && HasSlash(keys[last]) && PrefixOf(keys[last]) != PrefixOf(keys[i])
    requires forall j :: last < j < i ==> !HasSlash(keys[j])
    ensures PrefixOf(keys[i]) !in Directories(keys[..n])
  {
    if n > 0 {
      assert keys[..n][..n - 1] == keys[..n - 1];
      NewDirectoryIsNew(keys, i, last, n - 1);
      var p := PrefixOf(keys[i]);
      if HasSlash(keys[n - 1]) && PrefixOf(keys[n - 1]) == p {
        PrefixContiguous(p, keys[n - 1], keys[last], keys[i]);
        PrefixIffDirectory(keys[last], p);
      }
    }
  }

  lemma {:induction false} NoDirectories(keys: seq<string>)
    requires forall j :: 0 <= j < |keys| ==> !HasSlash(keys[j])
    ensures Directories(keys) == {}
    decreases |keys|
  {
    if keys != [] { NoDirectories(keys[..|keys| - 1]); }
  }

  lemma FinishKeyDirectory(p: string)
    requires IsEntryPrefix(p)
    ensures HasSlash(p + FINISH) && PrefixOf(p + FINISH) == p
  {
    PrefixIffDirectory(p + FINISH, p);
  }

  /** The finished marks of entries other than the one just touched do not depend on the new key. */
  lemma OtherMarksStand(entries: seq<Entry>, keys: seq<string>, key: string)
    requires FinishedRight(entries, keys)
    requires forall i :: 0 <= i < |entries| && HasSlash(key) ==> entries[i].prefix != PrefixOf(key)
    ensures FinishedRight(entries, keys + [key])
  {
    forall i | 0 <= i < |entries| ensures entries[i].prefix + FINISH != key {
      FinishKeyDirectory(entries[i].prefix);
    }
  }

  /** The last entry after reading `key`: finished as soon as the key is the finish marker. */
  lemma LastMark(last: Entry, keys: seq<string>, key: string)
    requires IsEntryPrefix(last.prefix) && (last.finished <==> last.prefix + FINISH in keys)
    ensures FinishedRight([Entry(last.prefix, last.finished || key == last.prefix + FINISH)], keys + [key])
  {
  }

  /** `listBackfillStagingEntries`: one pass that compares each key only with the last entry made. */
  method GroupStagingEntries(keys: seq<string>) returns (entries: seq<Entry>)
    requires Ascending(keys)
    ensures GroupsKeys(entries, keys)
  {
    entries := [];
    ghost var last: nat := 0;   // index of the last key that had a directory
    for i := 0 to |keys|
      invariant Grouped(keys, i, entries, last)
    {
      var key := keys[i];
      if HasSlash(key) {
        entries := AddKey(entries, key, keys, i, last);
        last := i;
      } else {
        PlainStep(keys, i, entries, last);
      }
    }
    assert keys[..|keys|] == keys;
  }

  /** The body of the loop: open an entry on a change of directory, then look for the finish marker. The
      entries group one key more than before. */
  method AddKey(entries: seq<Entry>, key: string, ghost keys: seq<string>, ghost i: nat, ghost last: nat) returns (r: seq<Entry>)
    requires Ascending(keys) && i < |keys| && keys[i] == key && HasSlash(key) && Grouped(keys, i, entries, last)
    ensures Grouped(keys, i + 1, r, i)
  {
    DirectoryStep(keys, i, entries, last);
    assert forall e :: 0 <= e < |entries| ==> IsEntryPrefix(entries[e].prefix);
    hide Grouped, Ascending, HasSlash;
    r := entries;
    var p := PrefixOf(key);
    if |r| == 0 || r[|r| - 1].prefix != p {
      r := r + [Entry(p, false)];
    }
    assert r == Grown(entries, p);
    if key == p + FINISH {
      r := r[|r| - 1 := Entry(p, true)];
    }
    assert r == MarkedLast(Grown(entries, p), key);
  }

  /** State of the pass before key `i`; `last` is the last key so far that had a directory. */
  ghost predicate Grouped(keys: seq<string>, i: nat, entries: seq<Entry>, last: nat)
    requires i <= |keys|
  {
    && (entries != [] ==> last < i && HasSlash(keys[last]) && PrefixOf(keys[last]) == entries[|entries| - 1].prefix)
    && (entries == [] ==> forall j :: 0 <= j < i ==> !HasSlash(keys[j]))
    && (forall j :: last < j < i ==> !HasSlash(keys[j]))
    && GroupsKeys(entries, keys[..i])
  }

  lemma PlainStep(keys: seq<string>, i: nat, entries: seq<Entry>, last: nat)
    requires i < |keys| && Grouped(keys, i, entries, last) && !HasSlash(keys[i])
    ensures Grouped(keys, i + 1, entries, last)
  {
    assert keys[..i + 1] == keys[..i] + [keys[i]];
    OtherMarksStand(entries, keys[..i], keys[i]);
  }

  /** An entry is opened on a change of directory. */
  function Grown(entries: seq<Entry>, p: string): (grown: seq<Entry>)
    ensures grown != [] && grown[|grown| - 1].prefix == p
  {
    if |entries| == 0 || entries[|entries| - 1].prefix != p then entries + [Entry(p, false)] else entries
  }

  lemma GrownGroups(keys: seq<string>, i: nat, entries: seq<Entry>, last: nat)
    requires Ascending(keys) && i < |keys| && Grouped(keys, i, entries, last) && HasSlash(keys[i])
    ensures var grown := Grown(entries, PrefixOf(keys[i]));
      DistinctPrefixes(grown) && FinishedRight(grown, keys[..i]) && Prefixes(grown) == Directories(keys[..i]) + {PrefixOf(keys[i])}
  {
    hide Ascending, HasSlash, FinishedRight, DistinctPrefixes;
    if |entries| == 0 || entries[|entries| - 1].prefix != PrefixOf(keys[i]) {
      OpenEntry(keys, i, last, entries);
    } else {
      EntryPrefixListed(entries, |entries| - 1);
    }
  }

  lemma DirectoryStep(keys: seq<string>, i: nat, entries: seq<Entry>, last: nat)
    requires Ascending(keys) && i < |keys| && Grouped(keys, i, entries, last) && HasSlash(keys[i])
    ensures Grouped(keys, i + 1, MarkedLast(Grown(entries, PrefixOf(keys[i])), keys[i]), i)
  {
    var key := keys[i];
    GrownGroups(keys, i, entries, last);
    assert keys[..i + 1] == keys[..i] + [key];
    hide GroupsKeys, Prefixes, Directories, DistinctPrefixes, FinishedRight, Ascending, Grouped;
    MarkLast(Grown(entries, PrefixOf(key)), keys[..i], key);
    GroupedIntro(keys, i + 1, MarkedLast(Grown(entries, PrefixOf(key)), key));
  }

  lemma GroupedIntro(keys: seq<string>, i: nat, entries: seq<Entry>)
    requires 0 < i <= |keys| && entries != [] && HasSlash(keys[i - 1])
    requires entries[|entries| - 1].prefix == PrefixOf(keys[i - 1]) && GroupsKeys(entries, keys[..i])
    ensures Grouped(keys, i, entries, i - 1)
  {
  }

  /** Opening an entry for a directory not seen before keeps the grouping, up to that directory's keys. */
  lemma OpenEntry(keys: seq<string>, i: nat, last: nat, entries: seq<Entry>)
    requires Ascending(keys) && i < |keys| && HasSlash(keys[i]) && GroupsKeys(entries, keys[..i])
    requires entries != [] ==> last < i && HasSlash(keys[last]) && PrefixOf(keys[last]) == entries[|entries| - 1].prefix
    requires entries == [] ==> forall j :: 0 <= j < i ==> !HasSlash(keys[j])
    requires forall j :: last < j < i ==> !HasSlash(keys[j])
    requires entries == [] || entries[|entries| - 1].prefix != PrefixOf(keys[i])
    ensures var grown := entries + [Entry(PrefixOf(keys[i]), false)];
      DistinctPrefixes(grown) && FinishedRight(grown, keys[..i]) && Prefixes(grown) == Directories(keys[..i]) + {PrefixOf(keys[i])}
  {
    var p := PrefixOf(keys[i]);
    if entries == [] { NoDirectories(keys[..i]); } else { NewDirectoryIsNew(keys, i, last, i); }
    forall e | 0 <= e < |entries| ensures entries[e].prefix != p { EntryPrefixListed(entries, e); }
    if p + FINISH in keys[..i] {
      var j :| 0 <= j < i && keys[j] == p + FINISH;
      FinishKeyDirectory(p);
      KeyDirectoryListed(keys[..i], j);
    }
    assert (entries + [Entry(p, false)])[..|entries|] == entries;
  }

  /** The last entry after reading one more key of its directory. */
  function MarkedLast(entries: seq<Entry>, key: string): seq<Entry>
    requires entries != []
  {
    var n := |entries| - 1;
    entries[..n] + [Entry(entries[n].prefix, entries[n].finished || key == entries[n].prefix + FINISH)]
  }

  lemma MarkLast(entries: seq<Entry>, keys: seq<string>, key: string)
    requires entries != [] && HasSlash(key) && entries[|entries| - 1].prefix == PrefixOf(key)
    requires DistinctPrefixes(entries) && FinishedRight(entries, keys)
    requires Prefixes(entries) == Directories(keys) + {PrefixOf(key)}
    ensures GroupsKeys(MarkedLast(entries, key), keys + [key])
  {
    var n := |entries| - 1;
    var marked := MarkedLast(entries, key);
    assert Prefixes(marked) == Directories(keys + [key]) by {
      assert marked[..n] == entries[..n];
      assert (keys + [key])[..|keys|] == keys;
    }
    assert DistinctPrefixes(marked) by {
      assert forall i :: 0 <= i <= n ==> marked[i].prefix == entries[i].prefix;
    }
    OtherMarksStand(entries[..n], keys, key);
    LastMark(entries[n], keys, key);
    MarksJoin(entries[..n], marked[n], keys + [key]);
  }

  lemma MarksJoin(front: seq<Entry>, last: Entry, keys: seq<string>)
    requires FinishedRight(front, keys) && FinishedRight([last], keys)
    ensures FinishedRight(front + [last], keys)
  {
    assert [last][0] == last;
  }
}
