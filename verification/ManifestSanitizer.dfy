/** The bridge's projection of an artifact manifest onto bounded, harmless data. */
module ManifestSanitizer {
  import opened PyLists

  /** The JavaScript values a manifest can hold; the entries of an object are in the order the language lists them. */
  datatype Js =
    | Undefined | Null | Bool(b: bool) | Num(n: real) | NonFinite | Str(s: string)
    | Arr(items: seq<Js>) | Obj(entries: seq<Property>) | Other

  datatype Property = Property(key: string, value: Js)

  const MAX_DEPTH := 5

  /** The parts of a key, in any case of ASCII letters, that keep its entry out. */
  const EXCLUDED := ["prompt", "scripttext", "transcript", "rawmedia", "base64", "token", "authorization", "privatekey",
                     "audio_bytes", "image_bytes"]

  function Lower(c: char): char {
    if 'A' <= c <= 'Z' then (c as int - 'A' as int + 'a' as int) as char else c
  }

  predicate OccursAt(word: string, key: string, i: nat) {
    i + |word| <= |key| && forall j :: 0 <= j < |word| ==> Lower(key[i + j]) == word[j]
  }

  predicate Excluded(key: string) {
    exists w, i :: 0 <= w < |EXCLUDED| && 0 <= i <= |key| && OccursAt(EXCLUDED[w], key, i)
  }

  /** A key that has one of the words anywhere in it is excluded. */
  lemma ExcludedWherever(before: string, word: string, after: string)
    requires word in EXCLUDED
    ensures Excluded(before + word + after)
  {
    var w :| 0 <= w < |EXCLUDED| && EXCLUDED[w] == word;
    var key := before + word + after;
    forall j | 0 <= j < |word| ensures Lower(key[|before| + j]) == word[j] {
      assert key[|before| + j] == word[j];
      WordsAreLower(w, j);
    }
    assert OccursAt(EXCLUDED[w], key, |before|);
  }

  lemma WordsAreLower(w: nat, j: nat)
    requires w < |EXCLUDED| && j < |EXCLUDED[w]|
    ensures Lower(EXCLUDED[w][j]) == EXCLUDED[w][j]
  {
  }

  /** Two characters are the same ASCII letter, large or small, or simply the same. */
  predicate SameLetter(c: char, d: char) {
    c == d || ('A' <= c <= 'Z' && d as int == c as int + 32) || ('A' <= d <= 'Z' && c as int == d as int + 32)
  }

  /** Whether a key is excluded does not depend on the case of its letters. */
  lemma CaseDoesNotMatter(a: string, b: string)
    requires |a| == |b| && (forall i :: 0 <= i < |a| ==> SameLetter(a[i], b[i])) && Excluded(a)
    ensures Excluded(b)
  {
    var w, i :| 0 <= w < |EXCLUDED| && 0 <= i <= |a| && OccursAt(EXCLUDED[w], a, i);
    forall j | 0 <= j < |EXCLUDED[w]| ensures Lower(b[i + j]) == EXCLUDED[w][j] {
      assert SameLetter(a[i + j], b[i + j]);
    }
    assert OccursAt(EXCLUDED[w], b, i);
  }

  /** What occurs in the beginning of a key occurs in the key. */
  lemma ExcludedByBeginning(key: string, n: nat)
    ensures Excluded(Cut(key, n)) ==> Excluded(key)
  {
    if w, i :| 0 <= w < |EXCLUDED| && 0 <= i <= |Cut(key, n)| && OccursAt(EXCLUDED[w], Cut(key, n), i) {
      assert OccursAt(EXCLUDED[w], key, i);
    }
  }

  /** Cutting a key cannot make it match. */
  lemma CutKeyIsKept(key: string, n: nat)
    requires !Excluded(key)
    ensures !Excluded(Cut(key, n))
  {
    ExcludedByBeginning(key, n);
  }

  // ----- objects

  /** The place of a key, or the number of entries when it is not there. */
  function IndexOf(entries: seq<Property>, key: string, from: nat): (i: nat)
    requires from <= |entries|
    ensures from <= i <= |entries| && (i < |entries| ==> entries[i].key == key)
    ensures forall j :: from <= j < i ==> entries[j].key != key
    decreases |entries| - from
  {
    if from == |entries| || entries[from].key == key then from else IndexOf(entries, key, from + 1)
  }

  /** Assigning to a property: an existing one keeps its place, and the prototype is no property. */
  function Put(entries: seq<Property>, key: string, value: Js): seq<Property> {
    var i := IndexOf(entries, key, 0);
    if key == "__proto__" then entries else if i < |entries| then entries[i := Property(key, value)]
    else entries + [Property(key, value)]
  }

  ghost predicate DistinctKeys(entries: seq<Property>) {
    forall i, j :: 0 <= i < j < |entries| ==> entries[i].key != entries[j].key
  }

  // ----- the projection

  /** What is left of a value at the given depth; `Undefined` when nothing is. */
  function Sanitized(value: Js, depth: nat): Js
    requires depth <= MAX_DEPTH + 1
    decreases MAX_DEPTH + 1 - depth, 0
  {
    if depth > MAX_DEPTH then Undefined
    else match value
      case Str(s) => Str(Cut(s, 512))
      case Num(_) => value
      case NonFinite => Undefined
      case Bool(_) => value
      case Null => Null
      case Arr(items) => Arr(SanitizedItems(items, Min(|items|, 40), depth + 1))
      case Obj(entries) => Obj(SanitizedEntries(entries, Min(|entries|, 60), depth + 1))
      case Undefined => Undefined
      case Other => Undefined
  }

  function SanitizedItems(items: seq<Js>, n: nat, depth: nat): (r: seq<Js>)
    requires n <= |items| && depth <= MAX_DEPTH + 1
    decreases MAX_DEPTH + 1 - depth, n + 1
  {
    if n == 0 then []
    else
      var item := Sanitized(items[n - 1], depth);
      SanitizedItems(items, n - 1, depth) + (if item == Undefined then [] else [item])
  }

  function SanitizedEntries(entries: seq<Property>, n: nat, depth: nat): seq<Property>
    requires n <= |entries| && depth <= MAX_DEPTH + 1
    decreases MAX_DEPTH + 1 - depth, n + 1
  {
    if n == 0 then []
    else
      var before, entry := SanitizedEntries(entries, n - 1, depth), entries[n - 1];
      if Excluded(entry.key) then before
      else
        var projected := Sanitized(entry.value, depth);
        if projected == Undefined then before else Put(before, Cut(entry.key, 128), projected)
  }

  // ----- what it guarantees

  /** A bounded, harmless value at the given depth. */
  ghost predicate Clean(value: Js, depth: nat)
    requires depth <= MAX_DEPTH + 1
    decreases MAX_DEPTH + 1 - depth
  {
    depth <= MAX_DEPTH &&
    match value
    case Str(s) => |s| <= 512
    case Num(_) => true
    case Bool(_) => true
    case Null => true
    case Arr(items) => |items| <= 40 && forall i :: 0 <= i < |items| ==> Clean(items[i], depth + 1)
    case Obj(entries) =>
      && |entries| <= 60 && DistinctKeys(entries)
      && forall i :: 0 <= i < |entries| ==> CleanKey(entries[i].key) && Clean(entries[i].value, depth + 1)
    case _ => false
  }

  ghost predicate CleanKey(key: string) {
    |key| <= 128 && !Excluded(key) && key != "__proto__"
  }

  ghost predicate CleanEntries(entries: seq<Property>, depth: nat)
    requires depth <= MAX_DEPTH + 1
  {
    DistinctKeys(entries) && forall i :: 0 <= i < |entries| ==>
      CleanKey(entries[i].key) && Clean(entries[i].value, depth)
  }

  lemma PutIsClean(entries: seq<Property>, key: string, value: Js, depth: nat)
    requires depth <= MAX_DEPTH + 1 && CleanEntries(entries, depth) && Clean(value, depth) && |key| <= 128
    requires !Excluded(key)
    ensures CleanEntries(Put(entries, key, value), depth) && |Put(entries, key, value)| <= |entries| + 1
  {
  }

  /** Whatever is left of a value is clean. */
  lemma {:induction false} SanitizedIsClean(value: Js, depth: nat)
    requires depth <= MAX_DEPTH + 1 && Sanitized(value, depth) != Undefined
    ensures Clean(Sanitized(value, depth), depth)
    decreases MAX_DEPTH + 1 - depth, 0
  {
    match value
    case Arr(items) => ItemsAreClean(items, Min(|items|, 40), depth + 1);
    case Obj(entries) => EntriesAreClean(entries, Min(|entries|, 60), depth + 1);
    case _ =>
  }

  lemma {:induction false} ItemsAreClean(items: seq<Js>, n: nat, depth: nat)
    requires n <= |items| && depth <= MAX_DEPTH + 1
    ensures var r := SanitizedItems(items, n, depth);
      |r| <= n && forall i :: 0 <= i < |r| ==> Clean(r[i], depth)
    decreases MAX_DEPTH + 1 - depth, n + 1
  {
    if n > 0 {
      ItemsAreClean(items, n - 1, depth);
      if Sanitized(items[n - 1], depth) != Undefined {
        SanitizedIsClean(items[n - 1], depth);
      }
    }
  }

  lemma {:induction false} EntriesAreClean(entries: seq<Property>, n: nat, depth: nat)
    requires n <= |entries| && depth <= MAX_DEPTH + 1
    ensures CleanEntries(SanitizedEntries(entries, n, depth), depth) && |SanitizedEntries(entries, n, depth)| <= n
    decreases MAX_DEPTH + 1 - depth, n + 1
  {
    if n > 0 {
      EntriesAreClean(entries, n - 1, depth);
      var before, entry := SanitizedEntries(entries, n - 1, depth), entries[n - 1];
      if !Excluded(entry.key) && Sanitized(entry.value, depth) != Undefined {
        SanitizedIsClean(entry.value, depth);
        CutKeyIsKept(entry.key, 128);
        PutIsClean(before, Cut(entry.key, 128), Sanitized(entry.value, depth), depth);
      }
    }
  }

  /** A clean value is left as it is. */
  lemma {:induction false} CleanIsKept(value: Js, depth: nat)
    requires depth <= MAX_DEPTH + 1 && Clean(value, depth)
    ensures Sanitized(value, depth) == value
    decreases MAX_DEPTH + 1 - depth, 0
  {
    match value
    case Str(s) =>
      assert Cut(s, 512) == s;
    case Arr(items) =>
      CleanItemsAreKept(items, |items|, depth + 1);
      assert Min(|items|, 40) == |items|;
    case Obj(entries) =>
      CleanEntriesAreKept(entries, |entries|, depth + 1);
      assert Min(|entries|, 60) == |entries|;
    case _ =>
  }

  lemma {:induction false} CleanItemsAreKept(items: seq<Js>, n: nat, depth: nat)
    requires n <= |items| && depth <= MAX_DEPTH + 1 && forall i :: 0 <= i < |items| ==> Clean(items[i], depth)
    ensures SanitizedItems(items, n, depth) == items[..n]
    decreases MAX_DEPTH + 1 - depth, n + 1
  {
    if n > 0 {
      CleanItemsAreKept(items, n - 1, depth);
      CleanIsKept(items[n - 1], depth);
    }
  }

  lemma {:induction false} CleanEntriesAreKept(entries: seq<Property>, n: nat, depth: nat)
    requires n <= |entries| && depth <= MAX_DEPTH + 1 && CleanEntries(entries, depth)
    ensures SanitizedEntries(entries, n, depth) == entries[..n]
    decreases MAX_DEPTH + 1 - depth, n + 1
  {
    if n > 0 {
      CleanEntriesAreKept(entries, n - 1, depth);
      CleanIsKept(entries[n - 1].value, depth);
      assert Cut(entries[n - 1].key, 128) == entries[n - 1].key;
      assert Put(entries[..n - 1], entries[n - 1].key, entries[n - 1].value) == entries[..n];
    }
  }

  /** The clean values are exactly those the projection leaves as they are. */
  lemma CleanIffFixed(value: Js, depth: nat)
    requires depth <= MAX_DEPTH + 1
    ensures Clean(value, depth) <==> value != Undefined && Sanitized(value, depth) == value
  {
    if Clean(value, depth) {
      CleanIsKept(value, depth);
    } else if value != Undefined && Sanitized(value, depth) == value {
      SanitizedIsClean(value, depth);
    }
  }

  /** Projecting twice is projecting once. */
  lemma Idempotent(value: Js, depth: nat)
    requires depth <= MAX_DEPTH + 1
    ensures Sanitized(Sanitized(value, depth), depth) == Sanitized(value, depth)
  {
    if Sanitized(value, depth) != Undefined {
      SanitizedIsClean(value, depth);
      CleanIsKept(Sanitized(value, depth), depth);
    }
  }

  /** The part of a value reached by taking, step by step, the item or the entry at a place. */
  ghost function Part(value: Js, path: seq<nat>): Option<Js>
    decreases |path|
  {
    if path == [] then Some(value)
    else if value.Arr? && path[0] < |value.items| then Part(value.items[path[0]], path[1..])
    else if value.Obj? && path[0] < |value.entries| then Part(value.entries[path[0]].value, path[1..])
    else None
  }

  /** The limits on a value, apart from what is inside it. */
  ghost predicate WithinLimits(value: Js) {
    match value
    case Str(s) => |s| <= 512
    case Arr(items) => |items| <= 40
    case Obj(entries) => |entries| <= 60 && DistinctKeys(entries) && forall e <- entries :: CleanKey(e.key)
    case _ => value != Undefined && value != NonFinite && value != Other
  }

  lemma {:induction false} PartsOfClean(value: Js, depth: nat, path: seq<nat>)
    requires depth <= MAX_DEPTH + 1 && Clean(value, depth) && Part(value, path).Some?
    ensures depth + |path| <= MAX_DEPTH && WithinLimits(Part(value, path).value)
    decreases |path|
  {
    if path != [] {
      PartsOfClean(if value.Arr? then value.items[path[0]] else value.entries[path[0]].value, depth + 1, path[1..]);
    }
  }

  /**
   Every part of a projected manifest, at any depth, is within
   the limits, and no part is nested deeper than five levels.
   */
  lemma {:induction false} BoundedEverywhere(value: Js, path: seq<nat>)
    requires Sanitized(value, 0) != Undefined && Part(Sanitized(value, 0), path).Some?
    ensures |path| <= 5 && WithinLimits(Part(Sanitized(value, 0), path).value)
  {
    SanitizedIsClean(value, 0);
    PartsOfClean(Sanitized(value, 0), 0, path);
  }

  function Lookup(entries: seq<Property>, key: string): Option<Js> {
    var i := IndexOf(entries, key, 0);
    if i < |entries| then Some(entries[i].value) else None
  }

  /** What the last of the first `n` entries that is kept under a key leaves there. */
  function LastKept(entries: seq<Property>, n: nat, depth: nat, key: string): Option<Js>
    requires n <= |entries| && depth <= MAX_DEPTH + 1
  {
    if n == 0 then None
    else if Cut(entries[n - 1].key, 128) == key && !Excluded(entries[n - 1].key)
      && Sanitized(entries[n - 1].value, depth) != Undefined
      then Some(Sanitized(entries[n - 1].value, depth))
    else LastKept(entries, n - 1, depth, key)
  }

  lemma IsAt(entries: seq<Property>, key: string, i: nat)
    requires DistinctKeys(entries) && i < |entries| && entries[i].key == key
    ensures IndexOf(entries, key, 0) == i
  {
  }

  lemma PutLookup(entries: seq<Property>, key: string, value: Js, other: string)
    requires DistinctKeys(entries)
    ensures DistinctKeys(Put(entries, key, value))
    ensures Lookup(Put(entries, key, value), other) ==
      if other == key && key != "__proto__" then Some(value) else Lookup(entries, other)
  {
    var put, i := Put(entries, key, value), IndexOf(entries, other, 0);
    if key != "__proto__" {
      if other == key {
        assert put[i] == Property(key, value);
        IsAt(put, key, i);
      } else if i < |entries| {
        assert put[i] == entries[i];
        IsAt(put, other, i);
      } else {
        assert forall k :: 0 <= k < |put| ==> put[k].key != other;
      }
    }
  }

  /** When cut keys collide, the last entry that leaves something wins; the prototype is never set. */
  lemma {:induction false} CollisionsTakeTheLast(entries: seq<Property>, n: nat, depth: nat, key: string)
    requires n <= |entries| && depth <= MAX_DEPTH + 1 && key != "__proto__"
    ensures DistinctKeys(SanitizedEntries(entries, n, depth))
    ensures Lookup(SanitizedEntries(entries, n, depth), key) == LastKept(entries, n, depth, key)
  {
    if n > 0 {
      CollisionsTakeTheLast(entries, n - 1, depth, key);
      PutLookup(SanitizedEntries(entries, n - 1, depth), Cut(entries[n - 1].key, 128),
                Sanitized(entries[n - 1].value, depth), key);
    }
  }

  // ----- what is kept

  /** Scalars are kept, strings cut, arrays and objects stay what they are; nothing is left below the fifth level. */
  lemma WhatIsLeft(value: Js, depth: nat)
    requires depth <= 6
    ensures var r := Sanitized(value, depth);
      if depth == 6 then r == Undefined
      else match value
        case Str(s) => r.Str? && r.s <= s && |r.s| == Min(|s|, 512)
        case Arr(_) => r.Arr?
        case Obj(_) => r.Obj?
        case _ => r == if value.Num? || value.Bool? || value.Null? then value else Undefined
  {
  }

  predicate Defined(value: Js) {
    value != Undefined
  }

  /** `each` is what is left of the first items, one by one. */
  ghost predicate LeftOfEach(each: seq<Js>, items: seq<Js>, depth: nat)
    requires depth <= MAX_DEPTH + 1
  {
    |each| <= |items| && forall k {:trigger each[k]} :: 0 <= k < |each| ==> each[k] == Sanitized(items[k], depth)
  }

  lemma {:induction false} ItemsKept(items: seq<Js>, depth: nat, each: seq<Js>)
    requires depth <= MAX_DEPTH + 1 && LeftOfEach(each, items, depth)
    ensures SanitizedItems(items, |each|, depth) == Filter(each, Defined)
    decreases |each|
  {
    if each != [] {
      var n := |each| - 1;
      assert each[n] == Sanitized(items[n], depth);
      ItemsKept(items, depth, each[..n]);
      FilterLast(each, Defined);
    }
  }

  /** Of an array the first 40 items count, and what is left of each of them is kept if it is anything. */
  lemma ArrayKeeps(items: seq<Js>, depth: nat, each: seq<Js>)
    requires depth <= 5 && |each| == Min(|items|, 40) && LeftOfEach(each, items, depth + 1)
    ensures Sanitized(Arr(items), depth) == Arr(Filter(each, Defined))
  {
    ItemsKept(items, depth + 1, each);
  }

  /** Entry `i` leaves something under the key. */
  ghost predicate LeavesUnder(entries: seq<Property>, i: nat, depth: nat, key: string)
    requires i < |entries| && depth <= MAX_DEPTH + 1
  {
    Cut(entries[i].key, 128) == key && !Excluded(entries[i].key) && Sanitized(entries[i].value, depth) != Undefined
  }

  ghost predicate NoneLeaves(entries: seq<Property>, from: nat, to: nat, depth: nat, key: string)
    requires to <= |entries| && depth <= MAX_DEPTH + 1
  {
    forall j {:trigger LeavesUnder(entries, j, depth, key)} :: from <= j < to ==> !LeavesUnder(entries, j, depth, key)
  }

  lemma {:induction false} LastKeptIs(entries: seq<Property>, n: nat, depth: nat, key: string) returns (i: nat)
    requires n <= |entries| && depth <= MAX_DEPTH + 1
    ensures i <= n
    ensures if i < n then
        && LeavesUnder(entries, i, depth, key) && NoneLeaves(entries, i + 1, n, depth, key)
        && LastKept(entries, n, depth, key) == Some(Sanitized(entries[i].value, depth))
      else
        NoneLeaves(entries, 0, n, depth, key) && LastKept(entries, n, depth, key) == None
  {
    i := 0;
    if n > 0 {
      if LeavesUnder(entries, n - 1, depth, key) {
        i := n - 1;
      } else {
        i := LastKeptIs(entries, n - 1, depth, key);
        i := if i == n - 1 then n else i;
      }
    }
  }

  /**
   Of an object the first 60 entries count: under a key there is what the last of them, number `i`,
   that leaves something under it leaves there; if none does, `i` is their number, and there is nothing.
   */
  lemma ObjectKeeps(entries: seq<Property>, depth: nat, key: string) returns (i: nat)
    requires depth <= 5 && key != "__proto__"
    ensures var n, r := Min(|entries|, 60), Sanitized(Obj(entries), depth);
      && r.Obj? && i <= n
      && if i < n then
           && LeavesUnder(entries, i, depth + 1, key) && NoneLeaves(entries, i + 1, n, depth + 1, key)
           && Lookup(r.entries, key) == Some(Sanitized(entries[i].value, depth + 1))
         else
           NoneLeaves(entries, 0, n, depth + 1, key) && Lookup(r.entries, key) == None
  {
    var n := Min(|entries|, 60);
    i := LastKeptIs(entries, n, depth + 1, key);
    CollisionsTakeTheLast(entries, n, depth + 1, key);
  }

  // ----- the code

  /** `sanitizeManifestValue`. */
  method SanitizeManifestValue(value: Js, depth: nat) returns (r: Js)
    requires depth <= MAX_DEPTH + 1
    ensures r == Sanitized(value, depth)
    decreases MAX_DEPTH + 1 - depth
  {
    if depth > MAX_DEPTH {
      return Undefined;
    }
    match value {
      case Str(s) => return Str(Cut(s, 512));
      case Num(_) => return value;
      case NonFinite => return Undefined;
      case Bool(_) => return value;
      case Null => return Null;
      case Arr(items) =>
        var kept: seq<Js> := [];
        for i := 0 to Min(|items|, 40)
          invariant kept == SanitizedItems(items, i, depth + 1)
        {
          var item := SanitizeManifestValue(items[i], depth + 1);
          if item != Undefined {
            kept := kept + [item];
          }
        }
        return Arr(kept);
      case Obj(entries) =>
        var result: seq<Property> := [];
        for i := 0 to Min(|entries|, 60)
          invariant result == SanitizedEntries(entries, i, depth + 1)
        {
          if Excluded(entries[i].key) {
            continue;
          }
          var projected := SanitizeManifestValue(entries[i].value, depth + 1);
          if projected != Undefined {
            result := Put(result, Cut(entries[i].key, 128), projected);
          }
        }
        return Obj(result);
      case Undefined => return Undefined;
      case Other => return Undefined;
    }
  }
}
