/** Validation of a video job request at the bridge, and the request id derived from it. */
module VideoRequest {
  import opened PyLists
  import opened ManifestSanitizer

  const TEMPLATE_FAMILIES := ["myth-vs-fact", "list/countdown", "mystery/reveal", "product-demo", "quote-to-insight",
                              "chart/data", "motivational", "series-recap", "pov-immersion", "reddit-story"]

  datatype Rule = Choice(allowed: seq<string>) | Text(max: nat) | Duration | Template

  datatype Field = Field(key: string, required: bool, rule: Rule)

  /** The fields copied to the validated request, in the order in which they are checked. */
  const FIELDS := [
    Field("prompt", true, Text(2000)),
    Field("platform", false, Choice(["tiktok", "youtube_shorts", "reels", "generic"])),
    Field("niche", false, Choice(["motivational", "finance", "facts", "true_crime", "tech", "other"])),
    Field("templateFamily", false, Template),
    Field("targetDurationSeconds", false, Duration),
    Field("modelTier", false, Choice(["fast", "worker", "supervisor", "reasoner"])),
    Field("audience", false, Text(160)),
    Field("tone", false, Choice(["educational", "urgent", "warm", "contrarian", "cinematic", "minimal",
                                 "faceless_broll", "kinetic_text"])),
    Field("style", false, Choice(["faceless_broll", "kinetic_text", "storytime", "tutorial", "myth_busting"])),
    Field("captionStyle", false, Choice(["bold_center", "lower_third", "minimal"])),
    Field("voice", false, Choice(["default", "calm", "energetic", "narrator"])),
    Field("voiceProfileId", false, Choice(["auto", "kokoro_warm", "kokoro_narrator", "kokoro_energetic",
                                           "kokoro_contrarian", "kokoro_storytime_dual"])),
    Field("storyMode", false, Choice(["single_narrator", "dialogue_storytime"]))]

  const ID_KEY := "clientRequestId"

  predicate Allowed(key: string) {
    key == ID_KEY || key == "template" || exists i :: 0 <= i < |FIELDS| && FIELDS[i].key == key
  }

  /** White space as JavaScript trims it. */
  predicate IsSpace(c: char) {
    var n := c as int;
    9 <= n <= 13 || n == 32 || n == 0xA0 || n == 0x1680 || 0x2000 <= n <= 0x200A || n == 0x2028 || n == 0x2029
      || n == 0x202F || n == 0x205F
    || n == 0x3000 || n == 0xFEFF
  }

  predicate Blank(s: string) {
    forall i :: 0 <= i < |s| ==> IsSpace(s[i])
  }

  /** A missing property reads as undefined. */
  function Get(entries: seq<Property>, key: string): Js {
    match Lookup(entries, key)
    case Some(value) => value
    case None => Undefined
  }

  function NormalTemplate(name: string): string {
    if name == "listicle-countdown" then "list/countdown" else name
  }

  /** What a rule makes of a value that is there. */
  function Accept(rule: Rule, value: Js): Option<Js> {
    match rule
    case Choice(allowed) => if value.Str? && value.s in allowed then Some(value) else None
    case Text(max) => if value.Str? && !Blank(value.s) && |value.s| <= max then Some(value) else None
    case Duration => if value.Num? && 15.0 <= value.n <= 180.0 then Some(value) else None
    case Template => if value.Str? && NormalTemplate(value.s) in TEMPLATE_FAMILIES
      then Some(Str(NormalTemplate(value.s))) else None
  }

  /** What a field contributes: nothing, a value to store, or a refusal. */
  datatype Reading = Skip | Store(value: Js) | Refuse

  function Judge(field: Field, value: Js): Reading {
    if value == Undefined && !field.required then Skip
    else match Accept(field.rule, value)
         case Some(stored) => Store(stored)
         case None => Refuse
  }

  /** The template family may come under two names, which must not differ. */
  function Read(entries: seq<Property>, field: Field): Reading {
    if field.rule != Template then Judge(field, Get(entries, field.key))
    else
      var family, template := Get(entries, "templateFamily"), Get(entries, "template");
      if family == Undefined && template == Undefined then Skip
      else if family != Undefined && template != Undefined && family != template then Refuse
      else match Accept(Template, if family == Undefined || family == Null then template else family)
           case Some(stored) => Store(stored)
           case None => Refuse
  }

  datatype Outcome = Valid(request: seq<Property>) | Invalid(key: string)

  /** The request filled from the first `n` fields. */
  function Filled(entries: seq<Property>, fields: seq<Field>, n: nat): Outcome
    requires n <= |fields|
  {
    if n == 0 then Valid([])
    else match Filled(entries, fields, n - 1)
         case Invalid(key) => Invalid(key)
         case Valid(request) =>
           match Read(entries, fields[n - 1])
           case Skip => Valid(request)
           case Store(value) => Valid(Put(request, fields[n - 1].key, value))
           case Refuse => Invalid(fields[n - 1].key)
  }

  /** The id of a request that brings none, from a digest of its canonical JSON. */
  function DerivedId(request: seq<Property>, before: (string, string) -> bool,
                     digest: seq<Property> -> string): string {
    "openclaw-" + Cut(digest(Canonical(request, before)), 48)
  }

  function WithId(request: seq<Property>, id: Js, before: (string, string) -> bool,
                  digest: seq<Property> -> string): Outcome {
    if id == Undefined then Valid(Put(request, ID_KEY, Str(DerivedId(request, before, digest))))
    else match Accept(Text(128), id)
         case Some(stored) => Valid(Put(request, ID_KEY, stored))
         case None => Invalid(ID_KEY)
  }

  function FirstUnexpected(entries: seq<Property>, n: nat): Option<string>
    requires n <= |entries|
    decreases |entries| - n
  {
    if n == |entries| then None else if !Allowed(entries[n].key) then Some(entries[n].key)
    else FirstUnexpected(entries, n + 1)
  }

  function Validated(input: Js, before: (string, string) -> bool, digest: seq<Property> -> string): Outcome {
    if !input.Obj? then Invalid("")
    else match FirstUnexpected(input.entries, 0)
         case Some(key) => Invalid(key)
         case None =>
           match Filled(input.entries, FIELDS, |FIELDS|)
           case Invalid(key) => Invalid(key)
           case Valid(request) => WithId(request, Get(input.entries, ID_KEY), before, digest)
  }

  // ----- canonical JSON

  /** Entries sorted by key. */
  function Inserted(sorted: seq<Property>, p: Property, before: (string, string) -> bool): seq<Property> {
    if sorted == [] || before(p.key, sorted[0].key) then [p] + sorted
    else [sorted[0]] + Inserted(sorted[1..], p, before)
  }

  function Canonical(entries: seq<Property>, before: (string, string) -> bool): seq<Property> {
    if entries == [] then [] else Inserted(Canonical(entries[..|entries| - 1], before), entries[|entries| - 1], before)
  }

  /** The comparison orders the given keys; what it does with others, such as two it takes for equal, is left open. */
  ghost predicate TotalOrder(keys: set<string>, before: (string, string) -> bool) {
    && (forall a, b :: a in keys && b in keys && a != b ==> (before(a, b) <==> !before(b, a)))
    && (forall a :: a in keys ==> !before(a, a))
    && (forall a, b, c :: a in keys && b in keys && c in keys && before(a, b) && before(b, c) ==> before(a, c))
  }

  ghost predicate KeysIn(entries: seq<Property>, keys: set<string>) {
    forall p <- entries :: p.key in keys
  }

  ghost predicate InOrder(entries: seq<Property>, before: (string, string) -> bool) {
    forall i, j :: 0 <= i < j < |entries| ==> before(entries[i].key, entries[j].key)
  }

  lemma FirstKeepsOrder(first: Property, rest: seq<Property>, before: (string, string) -> bool)
    requires InOrder(rest, before) && forall q <- rest :: before(first.key, q.key)
    ensures InOrder([first] + rest, before)
  {
  }

  lemma {:induction false} InsertedElements(sorted: seq<Property>, p: Property, before: (string, string) -> bool)
    ensures multiset(Inserted(sorted, p, before)) == multiset(sorted) + multiset{p}
  {
    if sorted != [] {
      assert sorted == [sorted[0]] + sorted[1..];
      InsertedElements(sorted[1..], p, before);
    }
  }

  lemma SameElementsSameKeys(a: seq<Property>, b: seq<Property>, keys: set<string>)
    requires KeysIn(a, keys) && multiset(a) == multiset(b)
    ensures KeysIn(b, keys)
  {
    forall p <- b ensures p.key in keys {
      assert p in multiset(b);
      assert p in a;
    }
  }

  lemma {:induction false} InsertKeepsOrder(sorted: seq<Property>, p: Property, keys: set<string>,
                                            before: (string, string) -> bool)
    requires TotalOrder(keys, before) && KeysIn(sorted, keys) && p.key in keys
    requires InOrder(sorted, before) && forall q <- sorted :: q.key != p.key
    ensures InOrder(Inserted(sorted, p, before), before)
  {
    if sorted == [] || before(p.key, sorted[0].key) {
      assert forall q <- sorted :: q == sorted[0] || before(sorted[0].key, q.key);
      FirstKeepsOrder(p, sorted, before);
    } else {
      var rest := Inserted(sorted[1..], p, before);
      InsertKeepsOrder(sorted[1..], p, keys, before);
      InsertedElements(sorted[1..], p, before);
      forall q <- rest ensures before(sorted[0].key, q.key) {
        assert q in multiset(rest);
        assert q == p || q in sorted[1..];
      }
      FirstKeepsOrder(sorted[0], rest, before);
    }
  }

  lemma {:induction false} CanonicalIsSorted(entries: seq<Property>, keys: set<string>,
                                             before: (string, string) -> bool)
    requires TotalOrder(keys, before) && KeysIn(entries, keys) && DistinctKeys(entries)
    ensures InOrder(Canonical(entries, before), before) && multiset(Canonical(entries, before)) == multiset(entries)
  {
    if entries != [] {
      var n := |entries| - 1;
      var earlier := Canonical(entries[..n], before);
      CanonicalIsSorted(entries[..n], keys, before);
      assert entries == entries[..n] + [entries[n]];
      forall q | q in earlier ensures q.key != entries[n].key {
        assert q in multiset(earlier);
        assert q in entries[..n];
      }
      SameElementsSameKeys(entries[..n], earlier, keys);
      InsertKeepsOrder(earlier, entries[n], keys, before);
      InsertedElements(earlier, entries[n], before);
    }
  }

  lemma SameLeast(a: seq<Property>, b: seq<Property>, keys: set<string>, before: (string, string) -> bool)
    requires TotalOrder(keys, before) && KeysIn(a, keys) && KeysIn(b, keys)
    requires InOrder(a, before) && InOrder(b, before) && a != [] && b != [] && multiset(a) == multiset(b)
    ensures a[0] == b[0]
  {
    assert a[0] in multiset(a) && b[0] in multiset(b);
    assert a[0] in b && b[0] in a;
  }

  lemma SameRest(a: seq<Property>, b: seq<Property>)
    requires a != [] && b != [] && a[0] == b[0] && multiset(a) == multiset(b)
    ensures multiset(a[1..]) == multiset(b[1..])
  {
    assert a == [a[0]] + a[1..] && b == [b[0]] + b[1..];
    assert multiset(a[1..]) == multiset(a) - multiset{a[0]};
  }

  /** There is only one way to put given entries in order. */
  lemma {:induction false} OneOrder(a: seq<Property>, b: seq<Property>, keys: set<string>,
                                    before: (string, string) -> bool)
    requires TotalOrder(keys, before) && KeysIn(a, keys) && KeysIn(b, keys)
    requires InOrder(a, before) && InOrder(b, before) && multiset(a) == multiset(b)
    ensures a == b
    decreases |a|
  {
    assert |a| == |multiset(a)| == |multiset(b)| == |b|;
    if a == [] {
    } else {
      SameLeast(a, b, keys, before);
      SameRest(a, b);
      assert KeysIn(a[1..], keys) && KeysIn(b[1..], keys);
      assert InOrder(a[1..], before) && InOrder(b[1..], before);
      OneOrder(a[1..], b[1..], keys, before);
    }
  }

  /** Canonical JSON depends on the entries and not on their order. */
  lemma CanonicalIgnoresOrder(a: seq<Property>, b: seq<Property>, keys: set<string>, before: (string, string) -> bool)
    requires TotalOrder(keys, before) && KeysIn(a, keys)
    requires DistinctKeys(a) && DistinctKeys(b) && multiset(a) == multiset(b)
    ensures Canonical(a, before) == Canonical(b, before)
  {
    SameElementsSameKeys(a, b, keys);
    CanonicalIsSorted(a, keys, before);
    CanonicalIsSorted(b, keys, before);
    SameElementsSameKeys(a, Canonical(a, before), keys);
    SameElementsSameKeys(b, Canonical(b, before), keys);
    OneOrder(Canonical(a, before), Canonical(b, before), keys, before);
  }

  /** So the derived id does not either: the same entries, in any order, get the same one. */
  lemma DerivedIdIgnoresOrder(a: seq<Property>, b: seq<Property>, keys: set<string>, before: (string, string) -> bool,
                              digest: seq<Property> -> string)
    requires TotalOrder(keys, before) && KeysIn(a, keys)
    requires DistinctKeys(a) && DistinctKeys(b) && multiset(a) == multiset(b)
    ensures DerivedId(a, before, digest) == DerivedId(b, before, digest)
  {
    CanonicalIgnoresOrder(a, b, keys, before);
  }

  /** Keys the comparison takes for equal keep the order they came in, so there the order shows. */
  lemma TiedKeysShowTheirOrder(p: Property, q: Property, before: (string, string) -> bool)
    requires !before(p.key, q.key) && !before(q.key, p.key)
    ensures Canonical([p, q], before) == [p, q] && Canonical([q, p], before) == [q, p]
  {
    assert [p, q][..1] == [p] && [q, p][..1] == [q] && [p][..0] == [q][..0] == [];
    assert Canonical([p], before) == [p] && Canonical([q], before) == [q];
  }

  // ----- what validation depends on

  lemma {:induction false} SameReadings(a: seq<Property>, b: seq<Property>, fields: seq<Field>, n: nat)
    requires n <= |fields| && forall i :: 0 <= i < n ==> Read(a, fields[i]) == Read(b, fields[i])
    ensures Filled(a, fields, n) == Filled(b, fields, n)
  {
    if n > 0 {
      SameReadings(a, b, fields, n - 1);
    }
  }

  lemma {:induction false} UnexpectedIffNotAllowed(entries: seq<Property>, n: nat)
    requires n <= |entries|
    ensures FirstUnexpected(entries, n) == None <==> forall i :: n <= i < |entries| ==> Allowed(entries[i].key)
    decreases |entries| - n
  {
    if n < |entries| {
      UnexpectedIffNotAllowed(entries, n + 1);
    }
  }

  /** Every property of `a` is a property of `b`. */
  ghost predicate KeysWithin(a: seq<Property>, b: seq<Property>) {
    forall i :: 0 <= i < |a| ==> IndexOf(b, a[i].key, 0) < |b|
  }

  lemma AllowedWithin(a: seq<Property>, b: seq<Property>)
    requires KeysWithin(a, b) && forall i :: 0 <= i < |b| ==> Allowed(b[i].key)
    ensures forall i :: 0 <= i < |a| ==> Allowed(a[i].key)
  {
  }

  lemma SameKeysSameRefusal(a: seq<Property>, b: seq<Property>)
    requires KeysWithin(a, b) && KeysWithin(b, a)
    ensures FirstUnexpected(a, 0) == None <==> FirstUnexpected(b, 0) == None
  {
    UnexpectedIffNotAllowed(a, 0);
    UnexpectedIffNotAllowed(b, 0);
    if FirstUnexpected(a, 0) == None {
      AllowedWithin(b, a);
    } else if FirstUnexpected(b, 0) == None {
      AllowedWithin(a, b);
    }
  }

  /** The outcome depends on what the fields read, on the id, and on whether all keys are allowed. */
  lemma SameOutcome(a: seq<Property>, b: seq<Property>, before: (string, string) -> bool,
                    digest: seq<Property> -> string)
    requires forall i :: 0 <= i < |FIELDS| ==> Read(a, FIELDS[i]) == Read(b, FIELDS[i])
    requires Get(a, ID_KEY) == Get(b, ID_KEY) && (FirstUnexpected(a, 0) == None <==> FirstUnexpected(b, 0) == None)
    ensures var left, right := Validated(Obj(a), before, digest), Validated(Obj(b), before, digest);
      left.Valid? || right.Valid? ==> left == right
  {
    SameReadings(a, b, FIELDS, |FIELDS|);
  }

  lemma LookupsAgree(a: seq<Property>, b: seq<Property>)
    requires forall key :: Lookup(a, key) == Lookup(b, key)
    ensures KeysWithin(a, b)
  {
    forall i | 0 <= i < |a| ensures IndexOf(b, a[i].key, 0) < |b| {
      assert Lookup(a, a[i].key).Some?;
    }
  }

  lemma ReadsAgree(a: seq<Property>, b: seq<Property>, field: Field)
    requires forall key :: Lookup(a, key) == Lookup(b, key)
    ensures Read(a, field) == Read(b, field)
  {
  }

  /**
   Two inputs that agree on every field, however ordered, are both refused or give the same request with the same id.
   */
  lemma OnlyFieldsMatter(a: seq<Property>, b: seq<Property>, before: (string, string) -> bool,
                         digest: seq<Property> -> string)
    requires forall key :: Lookup(a, key) == Lookup(b, key)
    ensures var left, right := Validated(Obj(a), before, digest), Validated(Obj(b), before, digest);
      left.Valid? || right.Valid? ==> left == right
  {
    LookupsAgree(a, b);
    LookupsAgree(b, a);
    SameKeysSameRefusal(a, b);
    forall i | 0 <= i < |FIELDS| ensures Read(a, FIELDS[i]) == Read(b, FIELDS[i]) {
      ReadsAgree(a, b, FIELDS[i]);
    }
    assert Get(a, ID_KEY) == Get(b, ID_KEY);
    SameOutcome(a, b, before, digest);
  }

  /** The template family is given as `v`, under one of its two names or under both. */
  predicate Gives(entries: seq<Property>, v: Js) {
    var family, template := Lookup(entries, "templateFamily"), Lookup(entries, "template");
    && (family == None || family == Some(v)) && (template == None || template == Some(v))
    && (family.Some? || template.Some?)
  }

  /** Two inputs that differ at most in the names the template family is given under. */
  ghost predicate SameButNames(a: seq<Property>, b: seq<Property>, v: Js) {
    && (forall key :: key != "template" && key != "templateFamily" ==> Lookup(a, key) == Lookup(b, key))
    && Gives(a, v) && Gives(b, v)
  }

  lemma NamesAreAllowed(a: seq<Property>, b: seq<Property>, v: Js)
    requires SameButNames(a, b, v)
    ensures (forall i :: 0 <= i < |b| ==> Allowed(b[i].key)) ==> forall i :: 0 <= i < |a| ==> Allowed(a[i].key)
  {
    assert FIELDS[3].key == "templateFamily";
    if forall i :: 0 <= i < |b| ==> Allowed(b[i].key) {
      forall i | 0 <= i < |a| ensures Allowed(a[i].key) {
        var key := a[i].key;
        assert Lookup(a, key).Some?;
        if key != "template" && key != "templateFamily" {
          assert Lookup(b, key).Some?;
          assert Allowed(b[IndexOf(b, key, 0)].key);
        }
      }
    }
  }

  lemma NamesReadAlike(a: seq<Property>, b: seq<Property>, v: Js, fields: seq<Field>, i: nat)
    requires SameButNames(a, b, v) && GoodFields(fields) && i < |fields|
    ensures Read(a, fields[i]) == Read(b, fields[i])
  {
  }

  /** It makes no difference which of its two names the template family comes under, or whether it comes under both. */
  lemma EitherNameWillDo(a: seq<Property>, b: seq<Property>, v: Js, before: (string, string) -> bool,
                         digest: seq<Property> -> string)
    requires SameButNames(a, b, v)
    ensures var left, right := Validated(Obj(a), before, digest), Validated(Obj(b), before, digest);
      left.Valid? || right.Valid? ==> left == right
  {
    UnexpectedIffNotAllowed(a, 0);
    UnexpectedIffNotAllowed(b, 0);
    NamesAreAllowed(a, b, v);
    NamesAreAllowed(b, a, v);
    FieldsAreGood();
    forall i | 0 <= i < |FIELDS| ensures Read(a, FIELDS[i]) == Read(b, FIELDS[i]) {
      NamesReadAlike(a, b, v, FIELDS, i);
    }
    SameOutcome(a, b, before, digest);
  }

  /** No two fields share a key, no key is one of the special ones, and only the template has a rule of its own kind. */
  ghost predicate GoodFields(fields: seq<Field>) {
    && (forall i, j :: 0 <= i < j < |fields| ==> fields[i].key != fields[j].key)
    && (forall i :: 0 <= i < |fields| ==>
        fields[i].key != ID_KEY && fields[i].key != "__proto__" && fields[i].key != "template")
    && (forall i :: 0 <= i < |fields| ==> (fields[i].rule == Template <==> fields[i].key == "templateFamily"))
  }

  lemma KeysDiffer(i: nat, j: nat)
    requires i < j < |FIELDS|
    ensures FIELDS[i].key != FIELDS[j].key
  {
  }

  lemma KeyIsPlain(i: nat)
    requires i < |FIELDS|
    ensures FIELDS[i].key != ID_KEY && FIELDS[i].key != "__proto__" && FIELDS[i].key != "template"
    ensures FIELDS[i].rule == Template <==> FIELDS[i].key == "templateFamily"
  {
  }

  lemma FieldsAreGood()
    ensures GoodFields(FIELDS)
  {
    forall i, j | 0 <= i < j < |FIELDS| ensures FIELDS[i].key != FIELDS[j].key {
      KeysDiffer(i, j);
    }
    forall i | 0 <= i < |FIELDS|
      ensures FIELDS[i].key != ID_KEY && FIELDS[i].key != "__proto__" && FIELDS[i].key != "template"
      ensures FIELDS[i].rule == Template <==> FIELDS[i].key == "templateFamily"
    {
      KeyIsPlain(i);
    }
  }

  // ----- revalidation

  lemma AcceptTwice(rule: Rule, value: Js)
    requires Accept(rule, value).Some?
    ensures var r := Accept(rule, value).value;
      r != Undefined && r != Null && Accept(rule, r) == Some(r)
  {
    if rule == Template {
      assert TEMPLATE_FAMILIES[1] == "list/countdown";
    }
  }

  function StoredBy(r: Reading): Option<Js> {
    if r.Store? then Some(r.value) else None
  }

  ghost predicate ReadsBack(entries: seq<Property>, request: seq<Property>, field: Field) {
    Lookup(request, field.key) == StoredBy(Read(entries, field))
  }

  /** The key is that of one of the first `n` fields. */
  ghost predicate Known(fields: seq<Field>, n: nat, key: string)
    requires n <= |fields|
  {
    exists j :: 0 <= j < n && fields[j].key == key
  }

  /** What has been filled in from the first `n` fields can be read back, and there is nothing else. */
  ghost predicate HoldsReadings(entries: seq<Property>, fields: seq<Field>, n: nat, request: seq<Property>)
    requires n <= |fields|
  {
    && DistinctKeys(request)
    && (forall i {:trigger ReadsBack(entries, request, fields[i])} :: 0 <= i < n ==>
        ReadsBack(entries, request, fields[i]))
    && (forall i {:trigger Known(fields, n, request[i].key)} :: 0 <= i < |request| ==> Known(fields, n, request[i].key))
  }

  lemma NoneUnderOtherKeys(entries: seq<Property>, fields: seq<Field>, n: nat, request: seq<Property>, key: string)
    requires n <= |fields| && HoldsReadings(entries, fields, n, request) && !Known(fields, n, key)
    ensures Lookup(request, key) == None
  {
    forall i | 0 <= i < |request| ensures request[i].key != key {
      assert Known(fields, n, request[i].key);
    }
  }

  lemma OneMoreField(entries: seq<Property>, fields: seq<Field>, n: nat, request: seq<Property>, value: Js)
    requires GoodFields(fields) && n < |fields| && HoldsReadings(entries, fields, n, request)
    requires Read(entries, fields[n]) == Store(value)
    ensures HoldsReadings(entries, fields, n + 1, Put(request, fields[n].key, value))
  {
    var key := fields[n].key;
    var put := Put(request, key, value);
    PutLookup(request, key, value, key);
    forall i | 0 <= i <= n ensures ReadsBack(entries, put, fields[i]) {
      PutLookup(request, key, value, fields[i].key);
      assert i < n ==> ReadsBack(entries, request, fields[i]);
    }
    forall i | 0 <= i < |put| ensures Known(fields, n + 1, put[i].key) {
      if put[i].key == key {
        assert fields[n].key == put[i].key;
      } else {
        assert put[i] == request[i] && Known(fields, n, request[i].key);
      }
    }
  }

  lemma OneFieldLess(entries: seq<Property>, fields: seq<Field>, n: nat, request: seq<Property>)
    requires GoodFields(fields) && n < |fields| && HoldsReadings(entries, fields, n, request)
    requires Read(entries, fields[n]) == Skip
    ensures HoldsReadings(entries, fields, n + 1, request)
  {
    NoneUnderOtherKeys(entries, fields, n, request, fields[n].key);
    forall i | 0 <= i <= n ensures ReadsBack(entries, request, fields[i]) {
      assert i < n ==> ReadsBack(entries, request, fields[i]);
    }
    forall i | 0 <= i < |request| ensures Known(fields, n + 1, request[i].key) {
      assert Known(fields, n, request[i].key);
    }
  }

  /** A valid request of `n` fields comes from one of `n - 1` by a field that is skipped or stored. */
  lemma LastFieldOf(entries: seq<Property>, fields: seq<Field>, n: nat)
    requires 0 < n <= |fields| && Filled(entries, fields, n).Valid?
    ensures Filled(entries, fields, n - 1).Valid? && Read(entries, fields[n - 1]) != Refuse
    ensures var before, after, reading := Filled(entries, fields, n - 1).request, Filled(entries, fields, n).request,
                                          Read(entries, fields[n - 1]);
      after == if reading == Skip then before else Put(before, fields[n - 1].key, reading.value)
  {
  }

  lemma {:induction false} FilledHolds(entries: seq<Property>, fields: seq<Field>, n: nat)
    requires GoodFields(fields) && n <= |fields| && Filled(entries, fields, n).Valid?
    ensures HoldsReadings(entries, fields, n, Filled(entries, fields, n).request)
  {
    if n > 0 {
      LastFieldOf(entries, fields, n);
      FilledHolds(entries, fields, n - 1);
      var before, after := Filled(entries, fields, n - 1).request, Filled(entries, fields, n).request;
      var reading := Read(entries, fields[n - 1]);
      if reading == Skip {
        assert after == before;
        OneFieldLess(entries, fields, n - 1, before);
      } else {
        assert after == Put(before, fields[n - 1].key, reading.value);
        OneMoreField(entries, fields, n - 1, before, reading.value);
      }
    }
  }

  /** No field is refused in a valid request, and what is stored is accepted again as it is. */
  lemma {:induction false} ReadingsOfValid(entries: seq<Property>, fields: seq<Field>, n: nat, i: nat)
    requires i < n <= |fields| && Filled(entries, fields, n).Valid?
    ensures Read(entries, fields[i]) != Refuse
  {
    if i < n - 1 {
      ReadingsOfValid(entries, fields, n - 1, i);
    }
  }

  /**
   What the validated request, id included, has under the key of a field, and under the other name of the template.
   */
  lemma FullLookups(entries: seq<Property>, fields: seq<Field>, request: seq<Property>, id: Js, i: nat)
    requires GoodFields(fields) && i < |fields| && HoldsReadings(entries, fields, |fields|, request)
    ensures var full := Put(request, ID_KEY, id);
      Lookup(full, fields[i].key) == StoredBy(Read(entries, fields[i])) && Lookup(full, "template") == None
  {
    PutLookup(request, ID_KEY, id, fields[i].key);
    PutLookup(request, ID_KEY, id, "template");
    NoneUnderOtherKeys(entries, fields, |fields|, request, "template");
    assert ReadsBack(entries, request, fields[i]);
  }

  /** A stored reading, read again from the validated request, is the same. */
  lemma ReadAgain(entries: seq<Property>, fields: seq<Field>, request: seq<Property>, id: Js, i: nat)
    requires GoodFields(fields) && i < |fields| && HoldsReadings(entries, fields, |fields|, request)
    requires Read(entries, fields[i]) != Refuse
    ensures Read(Put(request, ID_KEY, id), fields[i]) == Read(entries, fields[i])
  {
    FullLookups(entries, fields, request, id, i);
    if Read(entries, fields[i]).Store? {
      StoredIsAccepted(entries, fields[i]);
    }
  }

  lemma StoredIsAccepted(entries: seq<Property>, field: Field)
    requires Read(entries, field).Store?
    ensures var v := Read(entries, field).value;
      v != Undefined && v != Null && Accept(field.rule, v) == Some(v)
  {
    var family, template := Get(entries, "templateFamily"), Get(entries, "template");
    var one := if family == Undefined || family == Null then template else family;
    AcceptTwice(field.rule, if field.rule != Template then Get(entries, field.key) else one);
  }

  /** The derived id is itself acceptable. */
  lemma DerivedIdIsAccepted(request: seq<Property>, before: (string, string) -> bool, digest: seq<Property> -> string)
    ensures Accept(Text(128), Str(DerivedId(request, before, digest))) == Some(Str(DerivedId(request, before, digest)))
  {
    var id := DerivedId(request, before, digest);
    assert id[0] == 'o';
  }

  lemma NothingUnexpected(entries: seq<Property>, request: seq<Property>, id: Js)
    requires HoldsReadings(entries, FIELDS, |FIELDS|, request)
    ensures FirstUnexpected(Put(request, ID_KEY, id), 0) == None
  {
    var full := Put(request, ID_KEY, id);
    UnexpectedIffNotAllowed(full, 0);
    forall i | 0 <= i < |full| ensures Allowed(full[i].key) {
      if full[i].key != ID_KEY {
        assert full[i] == request[i] && Known(FIELDS, |FIELDS|, request[i].key);
      }
    }
  }

  /** Filling a request from the validated one gives the same request. */
  lemma FilledAgain(entries: seq<Property>, fields: seq<Field>, id: Js)
    requires GoodFields(fields) && Filled(entries, fields, |fields|).Valid?
    ensures Filled(Put(Filled(entries, fields, |fields|).request, ID_KEY, id), fields, |fields|)
         == Filled(entries, fields, |fields|)
  {
    var request := Filled(entries, fields, |fields|).request;
    var full := Put(request, ID_KEY, id);
    FilledHolds(entries, fields, |fields|);
    forall i | 0 <= i < |fields| ensures Read(full, fields[i]) == Read(entries, fields[i]) {
      ReadingsOfValid(entries, fields, |fields|, i);
      ReadAgain(entries, fields, request, id, i);
    }
    SameReadings(full, entries, fields, |fields|);
  }

  /** The id a valid input is given is acceptable, and stored last. */
  lemma IdOfValid(input: Js, before: (string, string) -> bool, digest: seq<Property> -> string) returns (id: Js)
    requires Validated(input, before, digest).Valid?
    ensures Filled(input.entries, FIELDS, |FIELDS|).Valid? && Accept(Text(128), id) == Some(id)
    ensures var request := Filled(input.entries, FIELDS, |FIELDS|).request;
      && Validated(input, before, digest) == Valid(Put(request, ID_KEY, id))
      && FirstUnexpected(Put(request, ID_KEY, id), 0) == None && Lookup(Put(request, ID_KEY, id), ID_KEY) == Some(id)
  {
    var request, given := Filled(input.entries, FIELDS, |FIELDS|).request, Get(input.entries, ID_KEY);
    id := if given == Undefined then Str(DerivedId(request, before, digest)) else given;
    DerivedIdIsAccepted(request, before, digest);
    FieldsAreGood();
    FilledHolds(input.entries, FIELDS, |FIELDS|);
    NothingUnexpected(input.entries, request, id);
    PutLookup(request, ID_KEY, id, ID_KEY);
  }

  /** Validating a validated request again returns it unchanged, its id included. */
  lemma RevalidationChangesNothing(input: Js, before: (string, string) -> bool, digest: seq<Property> -> string)
    requires Validated(input, before, digest).Valid?
    ensures Validated(Obj(Validated(input, before, digest).request), before, digest) == Validated(input, before, digest)
  {
    var id := IdOfValid(input, before, digest);
    FieldsAreGood();
    FilledAgain(input.entries, FIELDS, id);
  }

  // ----- which inputs are valid

  /** What a rule asks of a value. */
  predicate Meets(rule: Rule, value: Js) {
    match rule
    case Choice(allowed) => value.Str? && value.s in allowed
    case Text(max) => value.Str? && |value.s| <= max && exists i :: 0 <= i < |value.s| && !IsSpace(value.s[i])
    case Duration => value.Num? && 15.0 <= value.n <= 180.0
    case Template => value.Str? && (value.s in TEMPLATE_FAMILIES || value.s == "listicle-countdown")
  }

  /** A stored value meets the rule of its field, and differs from the given one only in the name of a template. */
  lemma AcceptIffMeets(rule: Rule, value: Js)
    ensures Accept(rule, value).Some? <==> Meets(rule, value)
    ensures Meets(rule, value) ==>
      Meets(rule, Accept(rule, value).value)
        && (Accept(rule, value).value == value || value == Str("listicle-countdown"))
  {
    assert TEMPLATE_FAMILIES[1] == "list/countdown";
  }

  /** The value of a field, if any, meets its rule; a template may come under two names, but not as two values. */
  predicate FieldIsFine(entries: seq<Property>, field: Field) {
    if field.rule != Template then
      var value := Get(entries, field.key);
      (value == Undefined && !field.required) || Meets(field.rule, value)
    else
      var family, template := Get(entries, "templateFamily"), Get(entries, "template");
      if family == Undefined || template == Undefined || family == template then
        var value := if family == Undefined then template else family;
        value == Undefined || Meets(Template, value)
      else false
  }

  lemma RefusedIffNotFine(entries: seq<Property>, field: Field)
    ensures Read(entries, field) == Refuse <==> !FieldIsFine(entries, field)
  {
    var family, template := Get(entries, "templateFamily"), Get(entries, "template");
    AcceptIffMeets(field.rule, if field.rule != Template then Get(entries, field.key)
                   else if family == Undefined then template else family);
  }

  lemma {:induction false} FilledIffFine(entries: seq<Property>, fields: seq<Field>, n: nat)
    requires n <= |fields|
    ensures Filled(entries, fields, n).Valid? <==> forall i :: 0 <= i < n ==> FieldIsFine(entries, fields[i])
  {
    if n > 0 {
      FilledIffFine(entries, fields, n - 1);
      RefusedIffNotFine(entries, fields[n - 1]);
      assert Filled(entries, fields, n).Valid? <==>
        Filled(entries, fields, n - 1).Valid? && Read(entries, fields[n - 1]) != Refuse;
    }
  }

  /**
   An input is accepted exactly when it is an object with no other keys, whose fields, the id included, are all fine.
   */
  lemma ValidIff(input: Js, before: (string, string) -> bool, digest: seq<Property> -> string)
    ensures Validated(input, before, digest).Valid? <==>
      && input.Obj?
      && (forall i :: 0 <= i < |input.entries| ==> Allowed(input.entries[i].key))
      && (forall i :: 0 <= i < |FIELDS| ==> FieldIsFine(input.entries, FIELDS[i]))
      && (Get(input.entries, ID_KEY) == Undefined || Meets(Text(128), Get(input.entries, ID_KEY)))
  {
    if input.Obj? {
      UnexpectedIffNotAllowed(input.entries, 0);
      FilledIffFine(input.entries, FIELDS, |FIELDS|);
      AcceptIffMeets(Text(128), Get(input.entries, ID_KEY));
    }
  }

  /**
   Every field of a validated request is there exactly when the input gives it, and meets its rule; so does the id.
   */
  lemma RequestMeetsRules(input: Js, before: (string, string) -> bool, digest: seq<Property> -> string, i: nat)
    requires Validated(input, before, digest).Valid? && i < |FIELDS|
    ensures var request, reading := Validated(input, before, digest).request, Read(input.entries, FIELDS[i]);
      && reading != Refuse && Lookup(request, FIELDS[i].key) == StoredBy(reading)
      && (reading.Store? ==> Meets(FIELDS[i].rule, reading.value))
      && Lookup(request, ID_KEY).Some? && Meets(Text(128), Lookup(request, ID_KEY).value)
  {
    var id := IdOfValid(input, before, digest);
    AcceptIffMeets(Text(128), id);
    FieldsAreGood();
    StoredMeetsRule(input.entries, FIELDS, id, i);
  }

  lemma StoredMeetsRule(entries: seq<Property>, fields: seq<Field>, id: Js, i: nat)
    requires GoodFields(fields) && Filled(entries, fields, |fields|).Valid? && i < |fields|
    ensures var full, reading := Put(Filled(entries, fields, |fields|).request, ID_KEY, id), Read(entries, fields[i]);
      && reading != Refuse && Lookup(full, fields[i].key) == StoredBy(reading)
      && (reading.Store? ==> Meets(fields[i].rule, reading.value))
  {
    FilledHolds(entries, fields, |fields|);
    ReadingsOfValid(entries, fields, |fields|, i);
    FullLookups(entries, fields, Filled(entries, fields, |fields|).request, id, i);
    if Read(entries, fields[i]).Store? {
      StoredIsAccepted(entries, fields[i]);
      AcceptIffMeets(fields[i].rule, Read(entries, fields[i]).value);
    }
  }

  /** What an input gives for a field: the template by either name, and one of its names replaced by a newer one. */
  function Given(entries: seq<Property>, field: Field): Option<Js> {
    var family := Get(entries, field.key);
    var value := if field.rule == Template && family == Undefined then Get(entries, "template") else family;
    if value == Undefined then None
    else if field.rule == Template && value == Str("listicle-countdown") then Some(Str("list/countdown"))
    else Some(value)
  }

  lemma FineIsStoredAsGiven(entries: seq<Property>, field: Field)
    requires Read(entries, field) != Refuse && (field.rule == Template ==> field.key == "templateFamily")
    ensures StoredBy(Read(entries, field)) == Given(entries, field)
  {
    assert TEMPLATE_FAMILIES[1] == "list/countdown";
  }

  /** A validated request holds, for every field, what the input gives for it, and besides these only the id. */
  lemma RequestHoldsWhatIsGiven(input: Js, before: (string, string) -> bool, digest: seq<Property> -> string)
    requires Validated(input, before, digest).Valid?
    ensures var request := Validated(input, before, digest).request;
      && input.Obj? && DistinctKeys(request)
      && (forall i :: 0 <= i < |FIELDS| ==> Lookup(request, FIELDS[i].key) == Given(input.entries, FIELDS[i]))
      && (forall k :: 0 <= k < |request| ==> request[k].key == ID_KEY || Known(FIELDS, |FIELDS|, request[k].key))
  {
    var id := IdOfValid(input, before, digest);
    FieldsAreGood();
    GivenIsHeld(input.entries, FIELDS, id);
  }

  lemma GivenIsHeld(entries: seq<Property>, fields: seq<Field>, id: Js)
    requires GoodFields(fields) && Filled(entries, fields, |fields|).Valid?
    ensures var full := Put(Filled(entries, fields, |fields|).request, ID_KEY, id);
      && DistinctKeys(full)
      && (forall i :: 0 <= i < |fields| ==> Lookup(full, fields[i].key) == Given(entries, fields[i]))
      && (forall k :: 0 <= k < |full| ==> full[k].key == ID_KEY || Known(fields, |fields|, full[k].key))
  {
    var request := Filled(entries, fields, |fields|).request;
    FilledHolds(entries, fields, |fields|);
    PutLookup(request, ID_KEY, id, ID_KEY);
    var full := Put(request, ID_KEY, id);
    forall i | 0 <= i < |fields| ensures Lookup(full, fields[i].key) == Given(entries, fields[i]) {
      ReadingsOfValid(entries, fields, |fields|, i);
      FullLookups(entries, fields, request, id, i);
      FineIsStoredAsGiven(entries, fields[i]);
    }
    forall k | 0 <= k < |full| ensures full[k].key == ID_KEY || Known(fields, |fields|, full[k].key) {
      if full[k].key != ID_KEY {
        assert full[k] == request[k] && Known(fields, |fields|, request[k].key);
      }
    }
  }

  /** The keys an input may have. */
  lemma AllowedKeys(key: string)
    ensures Allowed(key) <==>
      key in ["prompt", "platform", "niche", "templateFamily", "template", "targetDurationSeconds", "modelTier",
              "audience", "tone", "style", "captionStyle", "voice", "voiceProfileId", "storyMode", "clientRequestId"]
  {
    var keys := ["prompt", "platform", "niche", "templateFamily", "targetDurationSeconds", "modelTier", "audience",
                 "tone", "style", "captionStyle", "voice", "voiceProfileId", "storyMode"];
    forall i | 0 <= i < |FIELDS| ensures FIELDS[i].key == keys[i] {
      KeyAt(keys, i);
    }
    if key in keys {
      var i :| 0 <= i < |keys| && keys[i] == key;
      assert FIELDS[i].key == key;
    }
  }

  lemma KeyAt(keys: seq<string>, i: nat)
    requires keys == ["prompt", "platform", "niche", "templateFamily", "targetDurationSeconds", "modelTier",
                      "audience", "tone", "style", "captionStyle", "voice", "voiceProfileId", "storyMode"]
    requires i < |FIELDS|
    ensures i < |keys| && FIELDS[i].key == keys[i]
  {
  }

  /** The first 48 characters of a digest. */
  function Short(digest: string): string {
    if |digest| <= 48 then digest else digest[..48]
  }

  /** An id that is given is kept; if none is, it is derived from the digest of the canonical request without an id. */
  ghost predicate IdLaw(given: Js, id: Js, stored: seq<Property>, before: (string, string) -> bool,
                        digest: seq<Property> -> string) {
    if given != Undefined then id == given
    else id == Str("openclaw-" + Short(digest(Canonical(stored, before))))
  }

  /** The id comes last, and only there. */
  lemma IdIsKeptOrDerived(input: Js, before: (string, string) -> bool, digest: seq<Property> -> string)
    requires Validated(input, before, digest).Valid?
    ensures var request := Validated(input, before, digest).request;
      && input.Obj? && request != [] && var n := |request| - 1;
      && request[n].key == ID_KEY && (forall p <- request[..n] :: p.key != ID_KEY)
      && Lookup(request, ID_KEY) == Some(request[n].value)
      && IdLaw(Get(input.entries, ID_KEY), request[n].value, request[..n], before, digest)
  {
    FieldsAreGood();
    FilledHolds(input.entries, FIELDS, |FIELDS|);
    var stored := Filled(input.entries, FIELDS, |FIELDS|).request;
    forall i | 0 <= i < |stored| ensures stored[i].key != ID_KEY {
      assert Known(FIELDS, |FIELDS|, stored[i].key);
    }
    IdIsAppended(stored, Get(input.entries, ID_KEY), before, digest);
  }

  lemma IdIsAppended(stored: seq<Property>, given: Js, before: (string, string) -> bool,
                     digest: seq<Property> -> string)
    requires (forall p <- stored :: p.key != ID_KEY) && WithId(stored, given, before, digest).Valid?
    ensures var full := WithId(stored, given, before, digest).request;
      && full != [] && full[..|full| - 1] == stored && full[|full| - 1].key == ID_KEY
      && Lookup(full, ID_KEY) == Some(full[|full| - 1].value)
      && IdLaw(given, full[|full| - 1].value, stored, before, digest)
  {
    assert IndexOf(stored, ID_KEY, 0) == |stored|;
    var full := WithId(stored, given, before, digest).request;
    assert full[..|stored|] == stored && full[|stored|].key == ID_KEY;
    forall j | 0 <= j < |stored| ensures full[j].key != ID_KEY {
      assert full[j] == stored[j] && stored[j] in stored;
    }
    assert IndexOf(full, ID_KEY, 0) == |stored|;
  }

  /** Where the comparison orders the keys in use, the derived id comes from the one list of the entries in order. */
  lemma DerivedFromSorted(input: Js, keys: set<string>, before: (string, string) -> bool,
                          digest: seq<Property> -> string, sorted: seq<Property>)
    requires Validated(input, before, digest).Valid? && Get(input.entries, ID_KEY) == Undefined
    requires var request := Validated(input, before, digest).request;
      && TotalOrder(keys, before) && KeysIn(request, keys) && InOrder(sorted, before)
      && request != [] && multiset(sorted) == multiset(request[..|request| - 1])
    ensures Lookup(Validated(input, before, digest).request, ID_KEY) == Some(Str("openclaw-" + Short(digest(sorted))))
  {
    var request := Validated(input, before, digest).request;
    IdIsKeptOrDerived(input, before, digest);
    RequestHoldsWhatIsGiven(input, before, digest);
    var stored := request[..|request| - 1];
    CanonicalIsSorted(stored, keys, before);
    SameElementsSameKeys(stored, sorted, keys);
    SameElementsSameKeys(stored, Canonical(stored, before), keys);
    OneOrder(sorted, Canonical(stored, before), keys, before);
  }

  // ----- which refusal is reported

  ghost predicate FirstStrange(entries: seq<Property>, i: nat) {
    i < |entries| && !Allowed(entries[i].key) && forall j :: 0 <= j < i ==> Allowed(entries[j].key)
  }

  ghost predicate FirstBad(entries: seq<Property>, fields: seq<Field>, i: nat) {
    i < |fields| && !FieldIsFine(entries, fields[i]) && forall j :: 0 <= j < i ==> FieldIsFine(entries, fields[j])
  }

  lemma StrangeIsReported(entries: seq<Property>, n: nat) returns (i: nat)
    requires n <= |entries| && FirstUnexpected(entries, n).Some?
    ensures n <= i < |entries| && !Allowed(entries[i].key) && forall j :: n <= j < i ==> Allowed(entries[j].key)
    ensures FirstUnexpected(entries, n) == Some(entries[i].key)
    decreases |entries| - n
  {
    if Allowed(entries[n].key) {
      i := StrangeIsReported(entries, n + 1);
    } else {
      i := n;
    }
  }

  lemma {:induction false} BadIsReported(entries: seq<Property>, fields: seq<Field>, n: nat) returns (i: nat)
    requires n <= |fields| && Filled(entries, fields, n).Invalid?
    ensures i < n && FirstBad(entries, fields, i) && Filled(entries, fields, n) == Invalid(fields[i].key)
  {
    if Filled(entries, fields, n - 1).Invalid? {
      i := BadIsReported(entries, fields, n - 1);
    } else {
      i := n - 1;
      RefusedIffNotFine(entries, fields[i]);
      FilledIffFine(entries, fields, i);
    }
  }

  /** A refusal names the first key that is not allowed, else the first field that is not fine, else the id. */
  lemma RefusalNamesTheFirst(input: Js, before: (string, string) -> bool, digest: seq<Property> -> string)
    returns (i: nat)
    requires Validated(input, before, digest).Invalid? && input.Obj?
    ensures var key, entries := Validated(input, before, digest).key, input.entries;
      || (FirstStrange(entries, i) && key == entries[i].key)
      || ((forall k :: 0 <= k < |entries| ==> Allowed(entries[k].key)) && FirstBad(entries, FIELDS, i)
          && key == FIELDS[i].key)
      || ((forall k :: 0 <= k < |entries| ==> Allowed(entries[k].key))
          && (forall k :: 0 <= k < |FIELDS| ==> FieldIsFine(entries, FIELDS[k])) && key == ID_KEY)
  {
    i := 0;
    UnexpectedIffNotAllowed(input.entries, 0);
    FilledIffFine(input.entries, FIELDS, |FIELDS|);
    if FirstUnexpected(input.entries, 0).Some? {
      i := StrangeIsReported(input.entries, 0);
    } else if Filled(input.entries, FIELDS, |FIELDS|).Invalid? {
      i := BadIsReported(input.entries, FIELDS, |FIELDS|);
    }
  }

  // ----- the smallest request

  /** The smallest request: a prompt alone is accepted, and gets its id from the digest of the prompt. */
  lemma PromptIsEnough(before: (string, string) -> bool, digest: seq<Property> -> string)
    ensures var prompt := [Property("prompt", Str("hi"))];
      Validated(Obj(prompt), before, digest)
      == Valid(prompt + [Property(ID_KEY, Str("openclaw-" + Cut(digest(prompt), 48)))])
  {
    var prompt := [Property("prompt", Str("hi"))];
    assert FIELDS[0].key == "prompt" && Allowed("prompt");
    UnexpectedIffNotAllowed(prompt, 0);
    forall i | 0 <= i < |FIELDS| ensures Read(prompt, FIELDS[i]) == if i == 0 then Store(Str("hi")) else Skip {
      PromptReads(prompt, i);
    }
    OnlyPrompt(prompt, FIELDS, |FIELDS|);
    assert Canonical(prompt[..0], before) == [];
    assert Inserted([], prompt[0], before) == prompt;
  }

  lemma PromptReads(prompt: seq<Property>, i: nat)
    requires prompt == [Property("prompt", Str("hi"))] && i < |FIELDS|
    ensures Read(prompt, FIELDS[i]) == if i == 0 then Store(Str("hi")) else Skip
  {
    if i == 0 {
      assert FIELDS[0] == Field("prompt", true, Text(2000)) && Get(prompt, "prompt") == Str("hi");
      assert !IsSpace("hi"[0]);
    } else {
      FieldsAreGood();
      OnlyPromptIsRequired(i);
    }
  }

  lemma OnlyPromptIsRequired(i: nat)
    requires 0 < i < |FIELDS|
    ensures !FIELDS[i].required
  {
  }

  lemma {:induction false} OnlyPrompt(prompt: seq<Property>, fields: seq<Field>, n: nat)
    requires prompt == [Property("prompt", Str("hi"))] && n <= |fields| && (n > 0 ==> fields[0].key == "prompt")
    requires forall i :: 0 <= i < n ==> Read(prompt, fields[i]) == if i == 0 then Store(Str("hi")) else Skip
    ensures Filled(prompt, fields, n) == Valid(if n == 0 then [] else prompt)
  {
    if n > 0 {
      OnlyPrompt(prompt, fields, n - 1);
      assert Read(prompt, fields[n - 1]) == if n == 1 then Store(Str("hi")) else Skip;
    }
  }

  // ----- the code

  lemma {:induction false} RefusalStays(entries: seq<Property>, fields: seq<Field>, m: nat, n: nat)
    requires m <= n <= |fields| && Filled(entries, fields, m).Invalid?
    ensures Filled(entries, fields, n) == Filled(entries, fields, m)
  {
    if m < n {
      RefusalStays(entries, fields, m, n - 1);
    }
  }

  lemma FilledStep(entries: seq<Property>, fields: seq<Field>, i: nat, request: seq<Property>)
    requires i < |fields| && Filled(entries, fields, i) == Valid(request)
    ensures var key, reading := fields[i].key, Read(entries, fields[i]);
      && (reading == Skip ==> Filled(entries, fields, i + 1) == Valid(request))
      && (reading.Store? ==> Filled(entries, fields, i + 1) == Valid(Put(request, key, reading.value)))
      && (reading == Refuse ==> Filled(entries, fields, i + 1) == Filled(entries, fields, |fields|) == Invalid(key))
  {
    if Read(entries, fields[i]) == Refuse {
      RefusalStays(entries, fields, i + 1, |fields|);
    }
  }

  /** The checks of the fields, one after another, each storing what it accepts. */
  method Fill(entries: seq<Property>, fields: seq<Field>) returns (r: Outcome)
    ensures r == Filled(entries, fields, |fields|)
  {
    var result: seq<Property> := [];
    for i := 0 to |fields|
      invariant Filled(entries, fields, i) == Valid(result)
    {
      var field, reading := fields[i], Read(entries, fields[i]);
      FilledStep(entries, fields, i, result);
      if reading == Refuse {
        return Invalid(field.key);
      }
      if reading.Store? {
        result := Put(result, field.key, reading.value);
      }
    }
    return Valid(result);
  }

  /** `validateVideoJobRequest`, its checks taken from the table of fields. */
  method ValidateVideoJobRequest(input: Js, before: (string, string) -> bool, digest: seq<Property> -> string)
    returns (r: Outcome)
    ensures r == Validated(input, before, digest)
  {
    if !input.Obj? {
      return Invalid("");
    }
    var entries := input.entries;
    var unexpected := FirstUnexpected(entries, 0);
    if unexpected.Some? {
      return Invalid(unexpected.value);
    }
    r := Fill(entries, FIELDS);
    if r.Valid? {
      r := WithId(r.request, Get(entries, ID_KEY), before, digest);
    }
  }
}
