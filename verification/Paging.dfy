/**
 Listings (internal/store/memory/store.go): the keys of a map, gathered in any order, sorted, and
 cut into pages.
 */
module Paging {
  import opened PageToken

  // ---- The order of strings ------------------------------------------------------------------------

  predicate Below(a: string, b: string) {
    b != "" && (a == "" || a[0] < b[0] || (a[0] == b[0] && Below(a[1..], b[1..])))
  }

  lemma {:induction false} BelowTotal(a: string, b: string)
    ensures Below(a, b) || a == b || Below(b, a)
  {
    if a != "" && b != "" && a[0] == b[0] {
      BelowTotal(a[1..], b[1..]);
      assert a[1..] == b[1..] ==> a == [a[0]] + a[1..] == b;
    }
  }

  lemma {:induction false} BelowTransitive(a: string, b: string, c: string)
    requires Below(a, b) && Below(b, c)
    ensures Below(a, c)
  {
    if a != "" && a[0] == b[0] && b[0] == c[0] {
      BelowTransitive(a[1..], b[1..], c[1..]);
    }
  }

  lemma {:induction false} BelowIrreflexive(a: string)
    ensures !Below(a, a)
  {
    if a != "" {
      BelowIrreflexive(a[1..]);
    }
  }

  /** The order of characters decides at the first place where the strings differ; a prefix comes first. */
  ghost predicate DifferAt(a: string, b: string, i: nat) {
    i <= |a| && i < |b| && a[..i] == b[..i] && (i == |a| || a[i] < b[i])
  }

  lemma {:induction false} BelowIsLexicographic(a: string, b: string)
    ensures Below(a, b) <==> exists i: nat :: DifferAt(a, b, i)
  {
    if b != "" && (a == "" || a[0] < b[0]) {
      assert DifferAt(a, b, 0);
    } else if a != "" && b != "" && a[0] == b[0] {
      BelowIsLexicographic(a[1..], b[1..]);
      if i: nat :| DifferAt(a[1..], b[1..], i) {
        assert a[..i + 1] == [a[0]] + a[1..][..i] && b[..i + 1] == [b[0]] + b[1..][..i];
        assert DifferAt(a, b, i + 1);
      }
      if i: nat :| DifferAt(a, b, i) {
        assert i > 0 && a[1..][..i - 1] == a[..i][1..] && b[1..][..i - 1] == b[..i][1..];
        assert DifferAt(a[1..], b[1..], i - 1);
      }
    }
  }

  ghost predicate Ascending(keys: seq<string>) {
    forall i, j :: 0 <= i < j < |keys| ==> Below(keys[i], keys[j])
  }

  /** `keys` is the sorted listing of the set `s`. */
  ghost predicate Lists(keys: seq<string>, s: set<string>) {
    Ascending(keys) && forall k :: k in keys <==> k in s
  }

  lemma {:induction false} ListingIsUnique(a: seq<string>, b: seq<string>, s: set<string>)
    requires Lists(a, s) && Lists(b, s)
    ensures a == b
  {
    EmptyListing(a, s);
    EmptyListing(b, s);
    if a != [] && b != [] {
      FirstIsLeast(a, s, b[0]);
      FirstIsLeast(b, s, a[0]);
      if a[0] != b[0] {
        BelowTransitive(a[0], b[0], a[0]);
        BelowIrreflexive(a[0]);
      }
      RestLists(a, s);
      RestLists(b, s);
      ListingIsUnique(a[1..], b[1..], s - {a[0]});
      assert a == [a[0]] + a[1..] && b == [b[0]] + b[1..];
    }
  }

  lemma EmptyListing(a: seq<string>, s: set<string>)
    requires Lists(a, s)
    ensures a == [] <==> s == {}
  {
    if a != [] {
      assert a[0] in s;
    }
  }

  lemma FirstIsLeast(a: seq<string>, s: set<string>, x: string)
    requires Lists(a, s) && x in s && a != []
    ensures a[0] == x || Below(a[0], x)
  {
    assert x in a;
  }

  lemma RestLists(a: seq<string>, s: set<string>)
    requires Lists(a, s) && a != []
    ensures Lists(a[1..], s - {a[0]})
  {
    forall k | k in a[1..] ensures k in s && k != a[0] {
      var i :| 1 <= i < |a| && a[i] == k;
      BelowIrreflexive(k);
    }
  }

  /** Every set has a listing. */
  lemma {:induction false} SomeListing(s: set<string>) returns (keys: seq<string>)
    ensures Lists(keys, s)
  {
    if s == {} {
      keys := [];
    } else {
      var k :| k in s;
      var rest := SomeListing(s - {k});
      var i := Place(rest, s - {k}, k);
      InsertLists(rest, s - {k}, k, i);
      assert s - {k} + {k} == s;
      keys := rest[..i] + [k] + rest[i..];
    }
  }

  /** Where a key belongs in a listing. */
  lemma {:induction false} Place(keys: seq<string>, s: set<string>, k: string) returns (i: nat)
    requires Lists(keys, s)
    ensures i <= |keys| && forall j :: 0 <= j < i ==> Below(keys[j], k)
    ensures i < |keys| ==> !Below(keys[i], k)
  {
    if keys == [] || !Below(keys[0], k) {
      i := 0;
    } else {
      RestLists(keys, s);
      i := Place(keys[1..], s - {keys[0]}, k);
      i := i + 1;
    }
  }

  /** `sort.Strings` after gathering the keys: one key at a time is put at its place. */
  method SortedKeys(s: set<string>) returns (keys: seq<string>)
    ensures Lists(keys, s)
  {
    keys := [];
    var rest := s;
    while rest != {}
      invariant rest <= s && Lists(keys, s - rest)
    {
      var k :| k in rest;
      var i := 0;
      while i < |keys| && Below(keys[i], k)
        invariant 0 <= i <= |keys| && forall j :: 0 <= j < i ==> Below(keys[j], k)
      {
        i := i + 1;
      }
      InsertLists(keys, s - rest, k, i);
      rest := rest - {k};
      keys := keys[..i] + [k] + keys[i..];
      assert s - rest == s - (rest + {k}) + {k};
    }
  }

  lemma InsertLists(keys: seq<string>, s: set<string>, k: string, i: nat)
    requires Lists(keys, s) && k !in s && i <= |keys|
    requires forall j :: 0 <= j < i ==> Below(keys[j], k)
    requires i < |keys| ==> !Below(keys[i], k)
    ensures Lists(keys[..i] + [k] + keys[i..], s + {k})
  {
    if i < |keys| {
      BelowTotal(keys[i], k);
      assert keys[i] in keys;
      forall j | i <= j < |keys| ensures Below(k, keys[j]) {
        if i < j {
          BelowTransitive(k, keys[i], keys[j]);
        }
      }
    }
    var out := keys[..i] + [k] + keys[i..];
    forall x ensures x in out <==> x in s + {k} {
      assert x in keys <==> x in keys[..i] || x in keys[i..] by {
        assert keys == keys[..i] + keys[i..];
      }
    }
  }

  // ---- Pages ------------------------------------------------------------------------------------------

  datatype Page = Page(keys: seq<string>, token: string)

  function PageEnd(n: nat, start: nat, pageSize: int): nat
    requires start <= n
  {
    if pageSize <= 0 || start + pageSize > n then n else start + pageSize
  }

  function PageOf(keys: seq<string>, token: string, pageSize: int): Page {
    var start := DecodePageToken(token);
    if start >= |keys| then Page([], "")
    else
      var end := PageEnd(|keys|, start, pageSize);
      Page(keys[start..end], if end < |keys| then EncodePageToken(end) else "")
  }

  /** `listTopics`, `listSubscriptions` and `listSubscriptionsByTopic`, up to the copying of the records. */
  method ListPage(s: set<string>, token: string, pageSize: int) returns (page: Page, ghost keys: seq<string>)
    ensures Lists(keys, s) && page == PageOf(keys, token, pageSize)
  {
    var sorted := SortedKeys(s);
    keys := sorted;
    var start := DecodePageToken(token);
    if start >= |sorted| {
      return Page([], ""), sorted;
    }
    var end := start + pageSize;
    if pageSize <= 0 || end > |sorted| {
      end := |sorted|;
    }
    var next := "";
    if end < |sorted| {
      next := EncodePageToken(end);
    }
    return Page(sorted[start..end], next), sorted;
  }

  lemma PageWithin(keys: seq<string>, s: set<string>, token: string, pageSize: int)
    requires Lists(keys, s)
    ensures forall k :: k in PageOf(keys, token, pageSize).keys ==> k in s
  {
  }

  /** A page has at most as many keys as asked for, and exactly as many if another follows; no limit gives all. */
  lemma PageIsBounded(keys: seq<string>, token: string, pageSize: int)
    ensures var page, start := PageOf(keys, token, pageSize), DecodePageToken(token);
      && (pageSize > 0 ==> |page.keys| <= pageSize)
      && (page.token != "" ==> pageSize > 0 && |page.keys| == pageSize)
      && (pageSize <= 0 && start < |keys| ==> page.keys == keys[start..])
      && (start < |keys| ==> 0 < |page.keys| <= |keys| - start && page.keys == keys[start..start + |page.keys|])
  {
  }

  /** All the keys seen by a client that starts at `token` and follows tokens until the empty one. */
  function Walk(keys: seq<string>, token: string, pageSize: int): seq<string>
    requires |keys| <= MAX_INT
    decreases |keys| - DecodePageToken(token)
  {
    var page := PageOf(keys, token, pageSize);
    if page.token == "" then page.keys
    else
      PageTokenRoundTrip(PageEnd(|keys|, DecodePageToken(token), pageSize));
      page.keys + Walk(keys, page.token, pageSize)
  }

  lemma {:induction false} WalkFrom(keys: seq<string>, token: string, pageSize: int)
    requires |keys| <= MAX_INT && DecodePageToken(token) <= |keys|
    ensures Walk(keys, token, pageSize) == keys[DecodePageToken(token)..]
    decreases |keys| - DecodePageToken(token)
  {
    var start := DecodePageToken(token);
    if start < |keys| {
      var end := PageEnd(|keys|, start, pageSize);
      if end < |keys| {
        PageTokenRoundTrip(end);
        WalkFrom(keys, EncodePageToken(end), pageSize);
        assert keys[start..] == keys[start..end] + keys[end..];
      }
    }
  }

  /** Following tokens from the empty one lists every key of the map exactly once, in order, and ends. */
  lemma WalkIsComplete(keys: seq<string>, s: set<string>, pageSize: int)
    requires Lists(keys, s) && |keys| <= MAX_INT
    ensures Walk(keys, "", pageSize) == keys
    ensures Lists(Walk(keys, "", pageSize), s)
  {
    WalkFrom(keys, "", pageSize);
  }
}
