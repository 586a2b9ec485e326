/** ListObjectsV2: handleS3ListObjectsV2 in internal/edge/edge.go. The full listing is a set of
    entries in increasing order; a page is a slice of it. */
module ListingSpec {
  import opened Lists
  import opened Order

  /** What one key contributes: itself, or the common prefix it is rolled up into. */
  datatype Entry = Object(name: string) | Common(name: string)

  /** strings.Index: the first occurrence of d in s, or -1. */
  function IndexOf(s: string, d: string): (r: int)
    ensures -1 <= r
    ensures r >= 0 ==> r + |d| <= |s| && d <= s[r..]
    ensures forall i :: 0 <= i <= |s| && (r < 0 || i < r) ==> !(d <= s[i..])
  {
    if d <= s then 0
    else if s == [] then -1
    else
      var r := IndexOf(s[1..], d);
      assert forall i :: 1 <= i <= |s| ==> s[i..] == s[1..][i - 1..];
      if r < 0 then -1 else r + 1
  }

  function EntryOf(key: string, prefix: string, delimiter: string): (e: Entry)
    requires prefix <= key
    ensures e.name <= key
  {
    var rest := key[|prefix|..];
    var idx := if delimiter == "" then -1 else IndexOf(rest, delimiter);
    if idx >= 0 then Common(prefix + rest[..idx + |delimiter|]) else Object(key)
  }

  /** name comes after the cursor; an empty cursor is no cursor. */
  predicate Past(cursor: string, name: string) { cursor == "" || Less(cursor, name) }

  ghost predicate Listed(keys: seq<string>, prefix: string, delimiter: string, cursor: string, e: Entry) {
    Past(cursor, e.name) && exists k :: k in keys && prefix <= k && EntryOf(k, prefix, delimiter) == e
  }

  ghost predicate Increasing(es: seq<Entry>) { forall i, j :: 0 <= i < j < |es| ==> Less(es[i].name, es[j].name) }

  /** es lists every key and common prefix past the cursor, once each, in strictly increasing order. */
  ghost predicate IsListing(keys: seq<string>, prefix: string, delimiter: string, cursor: string, es: seq<Entry>) {
    Increasing(es) && forall e :: e in es <==> Listed(keys, prefix, delimiter, cursor, e)
  }

  datatype Page = Page(contents: seq<string>, commons: seq<string>, token: string, truncated: bool)

  function Objects(es: seq<Entry>): (r: seq<string>) {
    if es == [] then [] else
      var n := |es| - 1;
      if es[n].Object? then Objects(es[..n]) + [es[n].name] else Objects(es[..n])
  }

  function Commons(es: seq<Entry>): (r: seq<string>) {
    if es == [] then [] else
      var n := |es| - 1;
      if es[n].Common? then Commons(es[..n]) + [es[n].name] else Commons(es[..n])
  }

  /** The first max entries, with the last one's name as the token when more follow. */
  function PageOf(es: seq<Entry>, max: nat): (p: Page) {
    if |es| <= max then Page(Objects(es), Commons(es), "", false)
    else Page(Objects(es[..max]), Commons(es[..max]), if max == 0 then "" else es[max - 1].name, true)
  }

  ghost predicate IsPage(keys: seq<string>, prefix: string, delimiter: string, max: nat, cursor: string, p: Page) {
    exists es :: IsListing(keys, prefix, delimiter, cursor, es) && p == PageOf(es, max)
  }

  /** The pages a client sees that sends back each token until a page is not truncated. */
  ghost predicate IsWalk(keys: seq<string>, prefix: string, delimiter: string, max: nat,
                         startAfter: string, continuation: string, pages: seq<Page>)
    decreases |pages|
  {
    && pages != []
    && IsPage(keys, prefix, delimiter, max, Cursor(continuation, startAfter), pages[0])
    && (if pages[0].truncated then IsWalk(keys, prefix, delimiter, max, startAfter, pages[0].token, pages[1..])
        else |pages| == 1)
  }

  function Cursor(continuation: string, startAfter: string): (c: string) {
    if continuation == "" then startAfter else continuation
  }

  // ---- what a listing means ----

  /** The delimiter occurs in the key after the prefix. */
  ghost predicate Delimited(key: string, prefix: string, delimiter: string) {
    delimiter != "" && exists i :: |prefix| <= i <= |key| && delimiter <= key[i..]
  }

  /** c is the beginning of the key up to and including the first delimiter after the prefix. */
  ghost predicate FirstPart(key: string, prefix: string, delimiter: string, c: string) {
    && delimiter != "" && |prefix| + |delimiter| <= |c| && c <= key && delimiter <= key[|c| - |delimiter|..]
    && forall i :: |prefix| <= i < |c| - |delimiter| ==> !(delimiter <= key[i..])
  }

  /** Past the cursor, and not beyond the last name of a page that was cut off. */
  predicate Within(cursor: string, cut: bool, last: string, name: string) {
    Past(cursor, name) && (cut ==> AtMost(name, last))
  }

  ghost predicate Ascends(names: seq<string>) { forall i, j :: 0 <= i < j < |names| ==> Less(names[i], names[j]) }

  /** The contents are exactly the keys with the prefix and no delimiter after it, the common prefixes exactly
      the first parts of the others, each once and in order. */
  ghost predicate Shows(keys: seq<string>, prefix: string, delimiter: string, cursor: string, cut: bool, last: string,
                        contents: seq<string>, commons: seq<string>)
  {
    && Ascends(contents) && Ascends(commons)
    && (forall x :: x in contents <==> IsContent(keys, prefix, delimiter, x) && Within(cursor, cut, last, x))
    && (forall c :: c in commons <==> IsCommonPrefix(keys, prefix, delimiter, c) && Within(cursor, cut, last, c))
  }

  ghost predicate IsContent(keys: seq<string>, prefix: string, delimiter: string, x: string) {
    x in keys && prefix <= x && !Delimited(x, prefix, delimiter)
  }

  ghost predicate IsCommonPrefix(keys: seq<string>, prefix: string, delimiter: string, c: string) {
    exists k <- keys :: prefix <= k && FirstPart(k, prefix, delimiter, c)
  }

  function AllContents(pages: seq<Page>): (r: seq<string>) {
    if pages == [] then [] else pages[0].contents + AllContents(pages[1..])
  }

  function AllCommons(pages: seq<Page>): (r: seq<string>) {
    if pages == [] then [] else pages[0].commons + AllCommons(pages[1..])
  }
}

module Listing {
  import opened Lists
  import opened Order
  import opened ListingSpec

  // ---- entries follow the order of the keys ----

  lemma {:induction false} PrefixAtMost(a: string, b: string)
    requires a <= b
    ensures AtMost(a, b)
  {
    if a != [] {
      PrefixAtMost(a[1..], b[1..]);
      assert a == [a[0]] + a[1..] && b == [b[0]] + b[1..];
    }
  }

  /** A string between c and an extension of c extends c. */
  lemma {:induction false} Between(c: string, s: string, t: string)
    requires c <= t && Less(c, s) && Less(s, t)
    ensures c <= s
  {
    if c != [] { Between(c[1..], s[1..], t[1..]); }
  }

  /** A key that extends another key's common prefix has that common prefix too, or a shorter one. */
  lemma RollsUp(k1: string, k2: string, prefix: string, delimiter: string)
    requires prefix <= k1 && prefix <= k2
    requires EntryOf(k2, prefix, delimiter).Common? && EntryOf(k2, prefix, delimiter).name <= k1
    ensures EntryOf(k1, prefix, delimiter).Common?
    ensures EntryOf(k1, prefix, delimiter).name <= EntryOf(k2, prefix, delimiter).name
  {
    var r1, r2 := k1[|prefix|..], k2[|prefix|..];
    var i2 := IndexOf(r2, delimiter);
    var c := EntryOf(k2, prefix, delimiter).name;
    assert r2[i2..][..|delimiter|] == delimiter;
    assert c[|prefix| + i2..] == delimiter;
    assert r1[i2..][..|delimiter|] == delimiter;
    assert delimiter <= r1[i2..];
    var i1 := IndexOf(r1, delimiter);
    assert 0 <= i1 <= i2;
    assert EntryOf(k1, prefix, delimiter).name == k1[..|prefix| + i1 + |delimiter|];
    assert c == k1[..|c|];
  }

  /** Entries come in the order of their keys. */
  lemma EntryMonotone(k1: string, k2: string, prefix: string, delimiter: string)
    requires prefix <= k1 && prefix <= k2 && Less(k1, k2)
    ensures EntryOf(k1, prefix, delimiter) == EntryOf(k2, prefix, delimiter)
         || Less(EntryOf(k1, prefix, delimiter).name, EntryOf(k2, prefix, delimiter).name)
  {
    var e1, e2 := EntryOf(k1, prefix, delimiter), EntryOf(k2, prefix, delimiter);
    PrefixAtMost(e1.name, k1);
    LessAtMost(e1.name, k1, k2);
    if e2.Common? && !Less(e1.name, e2.name) {
      LessTotal(e1.name, e2.name);
      if Less(e2.name, e1.name) { Between(e2.name, e1.name, k2); }
      assert e2.name <= e1.name <= k1;
      RollsUp(k1, k2, prefix, delimiter);
      assert e1.name == e2.name;
    }
  }

  /** An entry past the cursor comes from a key past the cursor. */
  lemma PastKey(k: string, prefix: string, delimiter: string, cursor: string)
    requires prefix <= k && Past(cursor, EntryOf(k, prefix, delimiter).name)
    ensures Past(cursor, k)
  {
    var e := EntryOf(k, prefix, delimiter);
    PrefixAtMost(e.name, k);
    if cursor != "" { LessAtMost(cursor, e.name, k); }
  }

  // ---- the handler's loop ----

  ghost predicate SortedKeys(keys: seq<string>) { forall i, j :: 0 <= i < j < |keys| ==> Less(keys[i], keys[j]) }

  lemma AppendEntry(s: seq<string>, k: nat, prefix: string, delimiter: string, cursor: string, es: seq<Entry>)
    requires k < |s| && SortedKeys(s) && prefix <= s[k]
    requires IsListing(s[..k], prefix, delimiter, cursor, es)
    ensures var e := EntryOf(s[k], prefix, delimiter);
      if e in es || !Past(cursor, e.name) then IsListing(s[..k + 1], prefix, delimiter, cursor, es)
      else IsListing(s[..k + 1], prefix, delimiter, cursor, es + [e])
  {
    var e := EntryOf(s[k], prefix, delimiter);
    assert s[..k + 1] == s[..k] + [s[k]];
    forall x ensures Listed(s[..k + 1], prefix, delimiter, cursor, x)
                <==> Listed(s[..k], prefix, delimiter, cursor, x) || (x == e && Past(cursor, x.name)) {
      assert s[k] in s[..k + 1];
      if Listed(s[..k], prefix, delimiter, cursor, x) {
        var y :| y in s[..k] && prefix <= y && EntryOf(y, prefix, delimiter) == x;
        assert y in s[..k + 1];
      }
    }
    if e !in es && Past(cursor, e.name) {
      forall i | 0 <= i < |es| ensures Less(es[i].name, e.name) { AfterAll(s, k, prefix, delimiter, cursor, es, i); }
    }
  }

  lemma AfterAll(s: seq<string>, k: nat, prefix: string, delimiter: string, cursor: string, es: seq<Entry>, i: nat)
    requires k < |s| && SortedKeys(s) && prefix <= s[k] && i < |es|
    requires IsListing(s[..k], prefix, delimiter, cursor, es) && EntryOf(s[k], prefix, delimiter) !in es
    ensures Less(es[i].name, EntryOf(s[k], prefix, delimiter).name)
  {
    assert Listed(s[..k], prefix, delimiter, cursor, es[i]);
    var y :| y in s[..k] && prefix <= y && EntryOf(y, prefix, delimiter) == es[i];
    var j :| 0 <= j < k && s[..k][j] == y;
    EntryMonotone(s[j], s[k], prefix, delimiter);
  }

  /** An object's own key has not been emitted before. */
  lemma ObjectIsNew(s: seq<string>, k: nat, prefix: string, delimiter: string, cursor: string, es: seq<Entry>)
    requires k < |s| && SortedKeys(s) && IsListing(s[..k], prefix, delimiter, cursor, es)
    ensures Object(s[k]) !in es
  {
    if Object(s[k]) in es {
      assert Listed(s[..k], prefix, delimiter, cursor, Object(s[k]));
      var y :| y in s[..k] && prefix <= y && EntryOf(y, prefix, delimiter) == Object(s[k]);
      var j :| 0 <= j < k && s[..k][j] == y;
      LessIrreflexive(s[k]);
    }
  }

  lemma CursorTest(a: string, cursor: string)
    ensures AtMost(a, cursor) <==> !Less(cursor, a)
  {
  }

  ghost predicate SeenIn(seen: set<string>, es: seq<Entry>) { forall c :: c in seen <==> Common(c) in es }

  /** One turn of the loop: what a key adds to the emissions. */
  method Emit(key: string, prefix: string, delimiter: string, cursor: string, es: seq<Entry>, seen: set<string>)
    returns (out: seq<Entry>, seen': set<string>)
    requires prefix <= key && SeenIn(seen, es) && Object(key) !in es
    ensures var e := EntryOf(key, prefix, delimiter);
      out == if e in es || !Past(cursor, e.name) then es else es + [e]
    ensures SeenIn(seen', out)
  {
    out, seen' := es, seen;
    ghost var e := EntryOf(key, prefix, delimiter);
    CursorTest(key, cursor);
    if Past(cursor, e.name) { PastKey(key, prefix, delimiter, cursor); }
    if cursor != "" && AtMost(key, cursor) { return; }
    if delimiter != "" {
      var rest := key[|prefix|..];
      var idx := IndexOf(rest, delimiter);
      if idx >= 0 {
        var common := prefix + rest[..idx + |delimiter|];
        assert e == Common(common);
        CursorTest(common, cursor);
        if cursor != "" && AtMost(common, cursor) { return; }
        if common !in seen' {
          seen' := seen' + {common};
          out := out + [Common(common)];
        }
        return;
      }
    }
    assert e == Object(key);
    out := out + [Object(key)];
  }

  /** The emissions of sorted keys that all have the prefix. */
  method Emissions(s: seq<string>, prefix: string, delimiter: string, cursor: string) returns (es: seq<Entry>)
    requires SortedKeys(s) && forall k <- s :: prefix <= k
    ensures IsListing(s, prefix, delimiter, cursor, es)
  {
    es := [];
    var seen: set<string> := {};
    for k := 0 to |s|
      invariant IsListing(s[..k], prefix, delimiter, cursor, es) && SeenIn(seen, es)
    {
      assert s[k] in s;
      ObjectIsNew(s, k, prefix, delimiter, cursor, es);
      AppendEntry(s, k, prefix, delimiter, cursor, es);
      es, seen := Emit(s[k], prefix, delimiter, cursor, es, seen);
    }
    assert s[..|s|] == s;
  }

  /** listObjectsByPrefix and the sort that follows it. */
  method SortedByPrefix(keys: seq<string>, prefix: string) returns (s: seq<string>)
    requires NoRepeats(keys)
    ensures SortedKeys(s) && forall k :: k in s <==> k in keys && prefix <= k
  {
    var found: seq<string> := [];
    for i := 0 to |keys|
      invariant NoRepeats(found) && forall k :: k in found <==> k in keys[..i] && prefix <= k
    {
      assert keys[..i + 1] == keys[..i] + [keys[i]] && keys[i] !in keys[..i];
      if prefix <= keys[i] { found := found + [keys[i]]; }
    }
    assert keys[..|keys|] == keys;
    StringsOrdered(found);
    SortSorted(Less, found);
    s := Sort(Less, found);
    forall k ensures k in s <==> k in found { SameMembers(s, found, k); }
  }

  lemma ListingOfFound(keys: seq<string>, s: seq<string>, prefix: string, delimiter: string, cursor: string,
                       es: seq<Entry>)
    requires IsListing(s, prefix, delimiter, cursor, es) && forall k :: k in s <==> k in keys && prefix <= k
    ensures IsListing(keys, prefix, delimiter, cursor, es)
  {
  }

  /** The response loop over the first entries. */
  method BuildPage(es: seq<Entry>, maxKeys: nat) returns (p: Page)
    ensures p == PageOf(es, maxKeys)
  {
    var limit := if maxKeys > |es| then |es| else maxKeys;
    var contents: seq<string>, commons: seq<string>, token := [], [], "";
    for i := 0 to limit
      invariant contents == Objects(es[..i]) && commons == Commons(es[..i])
      invariant token == if i == 0 then "" else es[i - 1].name
    {
      assert es[..i + 1][..i] == es[..i];
      if es[i].Object? {
        contents := contents + [es[i].name];
      } else {
        commons := commons + [es[i].name];
      }
      token := es[i].name;
    }
    assert es[..|es|] == es;
    p := if |es| > limit then Page(contents, commons, token, true) else Page(contents, commons, "", false);
  }

  // ---- what Contents and CommonPrefixes are ----

  lemma {:induction false} SplitMembers(es: seq<Entry>)
    ensures forall x :: (x in Objects(es) <==> Object(x) in es) && (x in Commons(es) <==> Common(x) in es)
    ensures |Objects(es)| + |Commons(es)| == |es|
  {
    if es != [] {
      var rest, e := es[..|es| - 1], es[|es| - 1];
      SplitMembers(rest);
      assert forall y :: y in es <==> y in rest || y == e;
    }
  }

  lemma {:induction false} SplitAscends(es: seq<Entry>)
    requires Increasing(es)
    ensures Ascends(Objects(es)) && Ascends(Commons(es))
  {
    if es != [] {
      var rest, e := es[..|es| - 1], es[|es| - 1];
      SplitAscends(rest);
      SplitMembers(rest);
      forall x | x in Objects(rest) ensures Less(x, e.name) { assert Object(x) in rest; }
      forall x | x in Commons(rest) ensures Less(x, e.name) { assert Common(x) in rest; }
    }
  }

  lemma Suffix(k: string, n: nat, i: nat)
    requires n <= i <= |k|
    ensures k[n..][i - n..] == k[i..]
  {
  }

  /** Where the first delimiter after the prefix is. */
  lemma FirstDelimiter(k: string, prefix: string, delimiter: string, idx: int)
    requires prefix <= k && delimiter != "" && idx == IndexOf(k[|prefix|..], delimiter)
    ensures forall i :: |prefix| <= i <= |k| && (idx < 0 || i < |prefix| + idx) ==> !(delimiter <= k[i..])
    ensures idx >= 0 ==> |prefix| + idx + |delimiter| <= |k| && delimiter <= k[|prefix| + idx..]
  {
    forall i | |prefix| <= i <= |k| && (idx < 0 || i < |prefix| + idx) ensures !(delimiter <= k[i..]) {
      Suffix(k, |prefix|, i);
    }
    if idx >= 0 { Suffix(k, |prefix|, |prefix| + idx); }
  }

  lemma PrefixJoin(k: string, prefix: string, n: nat)
    requires prefix <= k && |prefix| + n <= |k|
    ensures prefix + k[|prefix|..][..n] == k[..|prefix| + n]
  {
  }

  /** A key is listed itself exactly when no delimiter follows the prefix, and otherwise as its first part. */
  lemma EntryMeans(k: string, prefix: string, delimiter: string)
    requires prefix <= k
    ensures EntryOf(k, prefix, delimiter) == Object(k) <==> !Delimited(k, prefix, delimiter)
    ensures forall x :: EntryOf(k, prefix, delimiter) == Object(x) ==> x == k
    ensures forall c :: EntryOf(k, prefix, delimiter) == Common(c) <==> FirstPart(k, prefix, delimiter, c)
  {
    if delimiter != "" {
      var idx := IndexOf(k[|prefix|..], delimiter);
      FirstDelimiter(k, prefix, delimiter, idx);
      if idx >= 0 { PrefixJoin(k, prefix, idx + |delimiter|); }
      forall c ensures EntryOf(k, prefix, delimiter) == Common(c) <==> FirstPart(k, prefix, delimiter, c) {
        FirstPartExactly(k, prefix, delimiter, idx, c);
      }
    }
  }

  lemma FirstPartExactly(k: string, prefix: string, delimiter: string, idx: int, c: string)
    requires prefix <= k && delimiter != ""
    requires forall i :: |prefix| <= i <= |k| && (idx < 0 || i < |prefix| + idx) ==> !(delimiter <= k[i..])
    requires idx >= 0 ==> |prefix| + idx + |delimiter| <= |k| && delimiter <= k[|prefix| + idx..]
    ensures FirstPart(k, prefix, delimiter, c) <==> idx >= 0 && c == k[..|prefix| + idx + |delimiter|]
  {
    if FirstPart(k, prefix, delimiter, c) { FirstPartIs(k, prefix, delimiter, idx, c); }
  }

  lemma FirstPartIs(k: string, prefix: string, delimiter: string, idx: int, c: string)
    requires prefix <= k && FirstPart(k, prefix, delimiter, c)
    requires forall i :: |prefix| <= i <= |k| && (idx < 0 || i < |prefix| + idx) ==> !(delimiter <= k[i..])
    requires idx >= 0 ==> |prefix| + idx + |delimiter| <= |k| && delimiter <= k[|prefix| + idx..]
    ensures idx >= 0 && c == k[..|prefix| + idx + |delimiter|]
  {
    var j := |c| - |delimiter|;
    assert delimiter <= k[j..];
    assert idx >= 0 && j == |prefix| + idx;
  }

  /** The entries of a listing up to some point, sorted into objects and common prefixes. */
  lemma ListsAre(keys: seq<string>, prefix: string, delimiter: string, cursor: string, cut: bool, last: string,
                 es: seq<Entry>)
    requires Increasing(es)
    requires forall e :: e in es <==> Listed(keys, prefix, delimiter, cursor, e) && (cut ==> AtMost(e.name, last))
    ensures Shows(keys, prefix, delimiter, cursor, cut, last, Objects(es), Commons(es))
  {
    SplitMembers(es);
    SplitAscends(es);
    forall k | k in keys && prefix <= k
      ensures EntryOf(k, prefix, delimiter) == Object(k) <==> !Delimited(k, prefix, delimiter)
      ensures forall x :: EntryOf(k, prefix, delimiter) == Object(x) ==> x == k
      ensures forall c :: EntryOf(k, prefix, delimiter) == Common(c) <==> FirstPart(k, prefix, delimiter, c)
    {
      EntryMeans(k, prefix, delimiter);
    }
    forall x ensures x in Objects(es) <==> IsContent(keys, prefix, delimiter, x) && Within(cursor, cut, last, x) {
      assert x in Objects(es) <==> Object(x) in es;
      assert Object(x) in es <==>
        Listed(keys, prefix, delimiter, cursor, Object(x)) && (cut ==> AtMost(Object(x).name, last));
    }
    forall c
      ensures c in Commons(es) <==> IsCommonPrefix(keys, prefix, delimiter, c) && Within(cursor, cut, last, c)
    {
      assert c in Commons(es) <==> Common(c) in es;
      assert Common(c) in es <==>
        Listed(keys, prefix, delimiter, cursor, Common(c)) && (cut ==> AtMost(Common(c).name, last));
    }
  }

  /** A page lists exactly what lies past the cursor and, if it is truncated, not past its token. */
  lemma PageLists(keys: seq<string>, prefix: string, delimiter: string, max: nat, cursor: string, es: seq<Entry>)
    requires IsListing(keys, prefix, delimiter, cursor, es) && (|es| > max ==> max > 0)
    ensures var p := PageOf(es, max);
      && Shows(keys, prefix, delimiter, cursor, p.truncated, p.token, p.contents, p.commons)
      && |p.contents| + |p.commons| == if p.truncated then max else |es|
  {
    if |es| > max {
      var last := es[max - 1].name;
      forall e ensures e in es[..max] <==> Listed(keys, prefix, delimiter, cursor, e) && AtMost(e.name, last) {
        assert e in es <==> Listed(keys, prefix, delimiter, cursor, e);
        if e in es { UpTo(es, max, e); }
      }
      ListsAre(keys, prefix, delimiter, cursor, true, last, es[..max]);
      SplitMembers(es[..max]);
    } else {
      ListsAre(keys, prefix, delimiter, cursor, false, "", es);
      SplitMembers(es);
    }
  }

  lemma UpTo(es: seq<Entry>, m: nat, e: Entry)
    requires Increasing(es) && 0 < m <= |es| && e in es
    ensures e in es[..m] <==> AtMost(e.name, es[m - 1].name)
  {
    var i :| 0 <= i < |es| && es[i] == e;
    if i < m {
      assert es[..m][i] == e;
    } else {
      LessAsymmetric(es[m - 1].name, e.name);
      LessIrreflexive(e.name);
      assert forall j :: 0 <= j < m ==> Less(es[j].name, e.name);
    }
  }

  /** handleS3ListObjectsV2 over the keys of one bucket. */
  method ListObjectsV2(keys: seq<string>, prefix: string, delimiter: string, maxKeys: nat,
                       startAfter: string, continuation: string) returns (p: Page, ghost es: seq<Entry>)
    requires NoRepeats(keys)
    ensures IsPage(keys, prefix, delimiter, maxKeys, Cursor(continuation, startAfter), p)
    ensures IsListing(keys, prefix, delimiter, Cursor(continuation, startAfter), es) && p == PageOf(es, maxKeys)
    ensures maxKeys > 0 || !p.truncated ==>
      && Shows(keys, prefix, delimiter, Cursor(continuation, startAfter), p.truncated, p.token, p.contents, p.commons)
      && |p.contents| + |p.commons| <= maxKeys && (p.truncated ==> |p.contents| + |p.commons| == maxKeys)
  {
    var s := SortedByPrefix(keys, prefix);
    var cursor := continuation;
    if cursor == "" { cursor := startAfter; }
    var emitted := Emissions(s, prefix, delimiter, cursor);
    ListingOfFound(keys, s, prefix, delimiter, cursor, emitted);
    p := BuildPage(emitted, maxKeys);
    es := emitted;
    if maxKeys > 0 || !p.truncated { PageLists(keys, prefix, delimiter, maxKeys, cursor, es); }
  }

  // ---- following tokens ----

  lemma RestIsListed(keys: seq<string>, prefix: string, delimiter: string, cursor: string, es: seq<Entry>, m: nat,
                     e: Entry)
    requires IsListing(keys, prefix, delimiter, cursor, es) && 0 < m <= |es| && e in es[m..]
    ensures Listed(keys, prefix, delimiter, es[m - 1].name, e)
  {
    var i :| 0 <= i < |es[m..]| && es[m..][i] == e;
    assert e == es[m + i] && Listed(keys, prefix, delimiter, cursor, e);
  }

  lemma ListedIsRest(keys: seq<string>, prefix: string, delimiter: string, cursor: string, es: seq<Entry>, m: nat,
                     e: Entry)
    requires IsListing(keys, prefix, delimiter, cursor, es) && 0 < m <= |es| && es[m - 1].name != ""
    requires Listed(keys, prefix, delimiter, es[m - 1].name, e)
    ensures e in es[m..]
  {
    PastToo(keys, prefix, delimiter, cursor, es, m, e);
    assert Listed(keys, prefix, delimiter, cursor, e);
    LaterEntry(es, m, e);
  }

  lemma PastToo(keys: seq<string>, prefix: string, delimiter: string, cursor: string, es: seq<Entry>, m: nat, e: Entry)
    requires IsListing(keys, prefix, delimiter, cursor, es) && 0 < m <= |es| && Less(es[m - 1].name, e.name)
    ensures Past(cursor, e.name)
  {
    assert Listed(keys, prefix, delimiter, cursor, es[m - 1]);
    if cursor != "" { LessTransitive(cursor, es[m - 1].name, e.name); }
  }

  lemma LaterEntry(es: seq<Entry>, m: nat, e: Entry)
    requires Increasing(es) && 0 < m <= |es| && e in es && Less(es[m - 1].name, e.name)
    ensures e in es[m..]
  {
    var i :| 0 <= i < |es| && es[i] == e;
    LessAsymmetric(e.name, es[m - 1].name);
    assert i >= m;
    assert es[m..][i - m] == e;
  }

  /** The listing past the token of a page is the rest of the listing. */
  lemma RestOfListing(keys: seq<string>, prefix: string, delimiter: string, cursor: string, es: seq<Entry>, m: nat)
    requires IsListing(keys, prefix, delimiter, cursor, es) && 0 < m <= |es| && es[m - 1].name != ""
    ensures IsListing(keys, prefix, delimiter, es[m - 1].name, es[m..])
  {
    forall e ensures e in es[m..] <==> Listed(keys, prefix, delimiter, es[m - 1].name, e) {
      if e in es[m..] { RestIsListed(keys, prefix, delimiter, cursor, es, m, e); }
      if Listed(keys, prefix, delimiter, es[m - 1].name, e) { ListedIsRest(keys, prefix, delimiter, cursor, es, m, e); }
    }
  }

  /** Two increasing lists with the same entries are equal. */
  lemma {:induction false} IncreasingUnique(a: seq<Entry>, b: seq<Entry>)
    requires Increasing(a) && Increasing(b) && forall e :: e in a <==> e in b
    ensures a == b
  {
    if a != [] { assert a[0] in a; }
    if b != [] { assert b[0] in b; }
    if a != [] && b != [] {
      SameFirst(a, b);
      forall e ensures e in a[1..] <==> e in b[1..] {
        TailMember(a, e);
        TailMember(b, e);
      }
      IncreasingUnique(a[1..], b[1..]);
      assert a == [a[0]] + a[1..] && b == [b[0]] + b[1..];
    }
  }

  lemma TailMember(a: seq<Entry>, e: Entry)
    requires a != [] && Increasing(a)
    ensures e in a[1..] <==> e in a && e != a[0]
  {
    LessIrreflexive(a[0].name);
  }

  lemma SameFirst(a: seq<Entry>, b: seq<Entry>)
    requires a != [] && b != [] && Increasing(a) && Increasing(b) && forall e :: e in a <==> e in b
    ensures a[0] == b[0]
  {
    assert a[0] in b && b[0] in a;
    var i :| 0 <= i < |b| && b[i] == a[0];
    var j :| 0 <= j < |a| && a[j] == b[0];
    LessAsymmetric(a[0].name, b[0].name);
  }

  lemma ListingUnique(keys: seq<string>, prefix: string, delimiter: string, cursor: string, a: seq<Entry>,
                      b: seq<Entry>)
    requires IsListing(keys, prefix, delimiter, cursor, a) && IsListing(keys, prefix, delimiter, cursor, b)
    ensures a == b
  {
    IncreasingUnique(a, b);
  }

  lemma {:induction false} ObjectsJoin(a: seq<Entry>, b: seq<Entry>)
    ensures Objects(a + b) == Objects(a) + Objects(b) && Commons(a + b) == Commons(a) + Commons(b)
  {
    if b == [] {
      assert a + b == a;
    } else {
      ObjectsJoin(a, b[..|b| - 1]);
      assert (a + b)[..|a + b| - 1] == a + b[..|b| - 1];
    }
  }

  /** The tokens a client follows are never empty. */
  ghost predicate TokensAdvance(max: nat, es: seq<Entry>) { |es| > max ==> max > 0 && es[max - 1].name != "" }

  /** The name of a later entry is not empty. */
  lemma LaterNames(es: seq<Entry>, i: nat)
    requires Increasing(es) && 0 < i < |es|
    ensures es[i].name != ""
  {
    assert Less(es[0].name, es[i].name);
  }

  /** The first page of a walk is cut from the listing, and the rest of the walk starts at its token. */
  lemma WalkStep(keys: seq<string>, prefix: string, delimiter: string, max: nat,
                 startAfter: string, continuation: string, pages: seq<Page>, es: seq<Entry>)
    requires IsWalk(keys, prefix, delimiter, max, startAfter, continuation, pages)
    requires IsListing(keys, prefix, delimiter, Cursor(continuation, startAfter), es)
    ensures pages != [] && pages[0] == PageOf(es, max)
    ensures if |es| > max then IsWalk(keys, prefix, delimiter, max, startAfter, pages[0].token, pages[1..])
            else |pages| == 1
  {
    var cursor := Cursor(continuation, startAfter);
    var l :| IsListing(keys, prefix, delimiter, cursor, l) && pages[0] == PageOf(l, max);
    ListingUnique(keys, prefix, delimiter, cursor, l, es);
  }

  /** Whatever pages a client collects by following tokens, together they are the unpaged listing. */
  lemma {:induction false} PagesAreListing(keys: seq<string>, prefix: string, delimiter: string, max: nat,
                                           startAfter: string, continuation: string, pages: seq<Page>, es: seq<Entry>)
    requires IsWalk(keys, prefix, delimiter, max, startAfter, continuation, pages)
    requires IsListing(keys, prefix, delimiter, Cursor(continuation, startAfter), es)
    requires TokensAdvance(max, es)
    ensures AllContents(pages) == Objects(es) && AllCommons(pages) == Commons(es)
    decreases |pages|
  {
    WalkStep(keys, prefix, delimiter, max, startAfter, continuation, pages, es);
    if |es| > max {
      RestOfListing(keys, prefix, delimiter, Cursor(continuation, startAfter), es, max);
      RestAdvances(max, es);
      PagesAreListing(keys, prefix, delimiter, max, startAfter, pages[0].token, pages[1..], es[max..]);
      ObjectsJoin(es[..max], es[max..]);
      assert es == es[..max] + es[max..];
    } else {
      assert pages[1..] == [];
    }
  }

  lemma RestAdvances(max: nat, es: seq<Entry>)
    requires Increasing(es) && TokensAdvance(max, es) && |es| > max
    ensures TokensAdvance(max, es[max..])
  {
  }

  /** So every walk shows every key and common prefix past the cursor once, in order. */
  lemma WalkShows(keys: seq<string>, prefix: string, delimiter: string, max: nat,
                  startAfter: string, continuation: string, pages: seq<Page>, es: seq<Entry>)
    requires IsWalk(keys, prefix, delimiter, max, startAfter, continuation, pages) && TokensAdvance(max, es)
    requires IsListing(keys, prefix, delimiter, Cursor(continuation, startAfter), es)
    ensures Shows(keys, prefix, delimiter, Cursor(continuation, startAfter), false, "",
                  AllContents(pages), AllCommons(pages))
  {
    PagesAreListing(keys, prefix, delimiter, max, startAfter, continuation, pages, es);
    ListsAre(keys, prefix, delimiter, Cursor(continuation, startAfter), false, "", es);
  }

  /** A client that sends back every token until the listing is complete. */
  method FollowTokens(keys: seq<string>, prefix: string, delimiter: string, max: nat,
                      startAfter: string, continuation: string, ghost es: seq<Entry>) returns (pages: seq<Page>)
    requires NoRepeats(keys) && TokensAdvance(max, es)
    requires IsListing(keys, prefix, delimiter, Cursor(continuation, startAfter), es)
    ensures IsWalk(keys, prefix, delimiter, max, startAfter, continuation, pages)
    ensures AllContents(pages) == Objects(es) && AllCommons(pages) == Commons(es)
    ensures Shows(keys, prefix, delimiter, Cursor(continuation, startAfter), false, "",
                  AllContents(pages), AllCommons(pages))
    decreases |es|
  {
    var p, l := ListObjectsV2(keys, prefix, delimiter, max, startAfter, continuation);
    ListingUnique(keys, prefix, delimiter, Cursor(continuation, startAfter), l, es);
    pages := [p];
    if p.truncated {
      RestOfListing(keys, prefix, delimiter, Cursor(continuation, startAfter), es, max);
      RestAdvances(max, es);
      var rest := FollowTokens(keys, prefix, delimiter, max, startAfter, p.token, es[max..]);
      pages := [p] + rest;
      assert pages[1..] == rest;
    }
    PagesAreListing(keys, prefix, delimiter, max, startAfter, continuation, pages, es);
    WalkShows(keys, prefix, delimiter, max, startAfter, continuation, pages, es);
  }

  /** From the start, with any page size that makes tokens advance. */
  method ListAll(keys: seq<string>, prefix: string, delimiter: string, max: nat, startAfter: string)
    returns (pages: seq<Page>)
    requires NoRepeats(keys) && max > 0 && !(max == 1 && startAfter == "" && prefix == "" && "" in keys)
    ensures IsWalk(keys, prefix, delimiter, max, startAfter, "", pages)
    ensures Shows(keys, prefix, delimiter, startAfter, false, "", AllContents(pages), AllCommons(pages))
  {
    var p, es := ListObjectsV2(keys, prefix, delimiter, max, startAfter, "");
    WhenTokensAdvance(keys, prefix, delimiter, max, startAfter, es);
    pages := [p];
    if p.truncated {
      RestOfListing(keys, prefix, delimiter, startAfter, es, max);
      RestAdvances(max, es);
      var rest := FollowTokens(keys, prefix, delimiter, max, startAfter, p.token, es[max..]);
      pages := [p] + rest;
      assert pages[1..] == rest;
    }
    WalkShows(keys, prefix, delimiter, max, startAfter, "", pages, es);
  }

  /** With a positive page size tokens advance, except for pages of one entry over an empty key. */
  lemma WhenTokensAdvance(keys: seq<string>, prefix: string, delimiter: string, max: nat, cursor: string,
                          es: seq<Entry>)
    requires IsListing(keys, prefix, delimiter, cursor, es)
    ensures TokensAdvance(max, es) <==>
      (|es| <= max || max >= 2 || (max == 1 && !(cursor == "" && prefix == "" && "" in keys)))
  {
    if max >= 2 && |es| > max { LaterNames(es, max - 1); }
    if max == 1 && |es| > 1 { EmptyEntry(keys, prefix, delimiter, cursor, es); }
  }

  lemma EmptyEntry(keys: seq<string>, prefix: string, delimiter: string, cursor: string, es: seq<Entry>)
    requires IsListing(keys, prefix, delimiter, cursor, es) && es != []
    ensures es[0].name == "" <==> cursor == "" && prefix == "" && "" in keys
  {
    assert Listed(keys, prefix, delimiter, cursor, es[0]);
    if es[0].name == "" {
      var k :| k in keys && prefix <= k && EntryOf(k, prefix, delimiter) == es[0];
    }
    if cursor == "" && prefix == "" && "" in keys {
      var none: string := "";
      assert EntryOf(none, prefix, delimiter) == Object(none);
      assert Listed(keys, prefix, delimiter, cursor, Object(none));
      var i :| 0 <= i < |es| && es[i] == Object(none);
    }
  }

  /** Otherwise the token is empty, the client is sent back to its start, and no walk ends. */
  lemma {:induction false} StuckWalk(keys: seq<string>, prefix: string, delimiter: string, max: nat,
                                     startAfter: string, pages: seq<Page>, es: seq<Entry>)
    requires IsListing(keys, prefix, delimiter, startAfter, es) && !TokensAdvance(max, es)
    ensures !IsWalk(keys, prefix, delimiter, max, startAfter, "", pages)
    decreases |pages|
  {
    if IsWalk(keys, prefix, delimiter, max, startAfter, "", pages) {
      WalkStep(keys, prefix, delimiter, max, startAfter, "", pages, es);
      StuckWalk(keys, prefix, delimiter, max, startAfter, pages[1..], es);
    }
  }
}
