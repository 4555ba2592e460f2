/** The key store of `src/utils/apiKeyStorage.ts`: API-key records kept in
    one JSON file that every operation reads and rewrites as a whole.

    The file is the field `file` of a `KeyStore` object, abstracted to
    "missing", "unreadable" (any read, parse or directory failure) or the
    parsed array. The clock, the random id and whether the write succeeds
    are parameters of the operations. */
module ApiKeyStorage {
  import opened Wrappers
  import opened Seqs
  import opened Text

  /** A point in time; the store keeps these as ISO-8601 strings. */
  type Timestamp = int

  /** One stored credential; `categories`, `lastUsed` and `notes` are the
      optional properties of the TypeScript interface. */
  datatype ApiKey = ApiKey(
    id: string,
    service: string,
    name: string,
    key: string,
    categories: Option<seq<string>>,
    lastUsed: Option<Timestamp>,
    notes: Option<string>,
    createdAt: Timestamp,
    updatedAt: Timestamp)

  /** What reading the storage file can find. */
  datatype FileState = Missing | Unreadable | Contents(keys: seq<ApiKey>)

  /** Why a store operation fails. */
  datatype StoreError = ReadFailed | WriteFailed | DuplicateKey | NotFound

  /** `Partial<Omit<ApiKey, 'id' | 'createdAt' | 'updatedAt'>>`: `None` is an
      absent property. */
  datatype KeyUpdates = KeyUpdates(
    service: Option<string>,
    name: Option<string>,
    key: Option<string>,
    categories: Option<seq<string>>,
    lastUsed: Option<Timestamp>,
    notes: Option<string>)

  // ------------------------------------------------------------ queries

  /** Some record already has this (service, name) pair. */
  predicate HasPair(ks: seq<ApiKey>, service: string, name: string) {
    exists i :: 0 <= i < |ks| && ks[i].service == service && ks[i].name == name
  }

  /** No two records share a (service, name) pair. */
  predicate UniquePairs(ks: seq<ApiKey>) {
    forall i, j :: 0 <= i < j < |ks| ==> !(ks[i].service == ks[j].service && ks[i].name == ks[j].name)
  }

  predicate HasId(ks: seq<ApiKey>, id: string) {
    exists i :: 0 <= i < |ks| && ks[i].id == id
  }

  predicate UniqueIds(ks: seq<ApiKey>) {
    forall i, j :: 0 <= i < j < |ks| ==> ks[i].id != ks[j].id
  }

  /** `keys.findIndex(k => k.id === id)`. */
  function IndexOfId(ks: seq<ApiKey>, id: string): (r: int)
    ensures -1 <= r < |ks|
    ensures r == -1 <==> !HasId(ks, id)
    ensures r >= 0 ==> ks[r].id == id && forall j :: 0 <= j < r ==> ks[j].id != id
    decreases |ks|
  {
    if ks == [] then -1
    else if ks[0].id == id then 0
    else
      var r := IndexOfId(ks[1..], id);
      if r == -1 then -1 else r + 1
  }

  /** `key.categories && key.categories.includes(category)`. */
  predicate HasCategory(k: ApiKey, category: string) {
    k.categories.Some? && category in k.categories.value
  }

  /** The categories one record contributes to the category set. */
  function CategoriesOf(k: ApiKey): set<string> {
    if k.categories.Some? && |k.categories.value| > 0 then set c | c in k.categories.value else {}
  }

  /** The categories of the records, gathered in order. */
  function CategoryUnion(ks: seq<ApiKey>): set<string>
    decreases |ks|
  {
    if ks == [] then {} else CategoryUnion(ks[..|ks| - 1]) + CategoriesOf(ks[|ks| - 1])
  }

  /** The category set holds exactly the tags that some record carries. */
  lemma {:induction false} CategoryUnionMembership(ks: seq<ApiKey>, c: string)
    ensures c in CategoryUnion(ks) <==> exists i :: 0 <= i < |ks| && HasCategory(ks[i], c)
    decreases |ks|
  {
    if ks != [] {
      var init := ks[..|ks| - 1];
      CategoryUnionMembership(init, c);
      assert forall i :: 0 <= i < |init| ==> init[i] == ks[i];
      if exists i :: 0 <= i < |ks| && HasCategory(ks[i], c) {
        var i :| 0 <= i < |ks| && HasCategory(ks[i], c);
        if i < |init| {
          assert HasCategory(init[i], c);
        }
      }
    }
  }

  /** `keys.filter(key => key.categories && key.categories.includes(category))`. */
  function KeysByCategory(ks: seq<ApiKey>, category: string): seq<ApiKey> {
    Filter(ks, (k: ApiKey) => HasCategory(k, category))
  }

  /** The records of a category are exactly those that carry the tag, each as
      often as in the store and in the store's order. */
  lemma KeysByCategorySpec(ks: seq<ApiKey>, category: string, x: ApiKey)
    ensures x in KeysByCategory(ks, category) <==> x in ks && HasCategory(x, category)
    ensures multiset(KeysByCategory(ks, category))[x] == if HasCategory(x, category) then multiset(ks)[x] else 0
    ensures IsSubsequence(KeysByCategory(ks, category), ks)
  {
    FilterMembership(ks, (k: ApiKey) => HasCategory(k, category), x);
    FilterMultiset(ks, (k: ApiKey) => HasCategory(k, category), x);
    FilterIsSubsequence(ks, (k: ApiKey) => HasCategory(k, category));
  }

  /** A tag is in the category list exactly when its category view is not
      empty. */
  lemma CategoryListedIffKeysExist(ks: seq<ApiKey>, category: string)
    ensures category in CategoryUnion(ks) <==> KeysByCategory(ks, category) != []
  {
    CategoryUnionMembership(ks, category);
    if exists i :: 0 <= i < |ks| && HasCategory(ks[i], category) {
      var i :| 0 <= i < |ks| && HasCategory(ks[i], category);
      KeysByCategorySpec(ks, category, ks[i]);
    }
    if KeysByCategory(ks, category) != [] {
      var x := KeysByCategory(ks, category)[0];
      KeysByCategorySpec(ks, category, x);
      var i :| 0 <= i < |ks| && ks[i] == x;
    }
  }

  // --------------------------------------------------- pure transformations

  /** What `getApiKeys` returns for a file state. */
  function LoadKeys(f: FileState): Result<seq<ApiKey>, StoreError> {
    match f
    case Missing => Ok([])
    case Unreadable => Err(ReadFailed)
    case Contents(ks) => Ok(ks)
  }

  /** The records of a readable file. */
  function StoredKeys(f: FileState): seq<ApiKey>
    requires !f.Unreadable?
  {
    if f.Contents? then f.keys else []
  }

  /** Only a missing file loads as the empty list without being one; an
      unreadable file is an error and never an empty list. */
  lemma LoadOutcomes(f: FileState)
    ensures LoadKeys(f).Ok? <==> !f.Unreadable?
    ensures LoadKeys(f).Ok? ==> LoadKeys(f).value == StoredKeys(f)
    ensures LoadKeys(f) == Ok([]) ==> f == Missing || f == Contents([])
  {
  }

  function Override<T>(current: Option<T>, update: Option<T>): Option<T> {
    if update.Some? then update else current
  }

  /** `{ ...k, ...updates, updatedAt: now }`. */
  function Merge(k: ApiKey, u: KeyUpdates, now: Timestamp): ApiKey {
    k.(service := u.service.GetOr(k.service),
       name := u.name.GetOr(k.name),
       key := u.key.GetOr(k.key),
       categories := Override(k.categories, u.categories),
       lastUsed := Override(k.lastUsed, u.lastUsed),
       notes := Override(k.notes, u.notes),
       updatedAt := now)
  }

  /** Present properties overwrite, absent ones are kept, the id and the
      creation time never change and `updatedAt` becomes `now`. */
  lemma MergeFields(k: ApiKey, u: KeyUpdates, now: Timestamp)
    ensures Merge(k, u, now).id == k.id && Merge(k, u, now).createdAt == k.createdAt
    ensures Merge(k, u, now).updatedAt == now
    ensures Merge(k, u, now).service == (if u.service.Some? then u.service.value else k.service)
    ensures Merge(k, u, now).name == (if u.name.Some? then u.name.value else k.name)
    ensures Merge(k, u, now).key == (if u.key.Some? then u.key.value else k.key)
    ensures u.categories.None? ==> Merge(k, u, now).categories == k.categories
    ensures u.lastUsed.None? ==> Merge(k, u, now).lastUsed == k.lastUsed
    ensures u.notes.None? ==> Merge(k, u, now).notes == k.notes
    ensures u.categories.Some? ==> Merge(k, u, now).categories == u.categories
    ensures u.lastUsed.Some? ==> Merge(k, u, now).lastUsed == u.lastUsed
    ensures u.notes.Some? ==> Merge(k, u, now).notes == u.notes
  {
  }

  /** Two spreads in a row are one spread of the combined update. */
  function Combine(first: KeyUpdates, second: KeyUpdates): KeyUpdates {
    KeyUpdates(Override(first.service, second.service), Override(first.name, second.name),
               Override(first.key, second.key), Override(first.categories, second.categories),
               Override(first.lastUsed, second.lastUsed), Override(first.notes, second.notes))
  }

  lemma MergeMerge(k: ApiKey, u1: KeyUpdates, t1: Timestamp, u2: KeyUpdates, t2: Timestamp)
    ensures Merge(Merge(k, u1, t1), u2, t2) == Merge(k, Combine(u1, u2), t2)
  {
  }

  /** `keys.filter(k => k.id !== id)`. */
  function WithoutId(ks: seq<ApiKey>, id: string): seq<ApiKey> {
    Filter(ks, (k: ApiKey) => k.id != id)
  }

  /** Deletion removes every record with the id, keeps every other record
      as often as it was there and in its order, and shortens the list
      exactly when the id occurs. */
  lemma WithoutIdSpec(ks: seq<ApiKey>, id: string, x: ApiKey)
    ensures x in WithoutId(ks, id) <==> x in ks && x.id != id
    ensures multiset(WithoutId(ks, id))[x] == if x.id != id then multiset(ks)[x] else 0
    ensures IsSubsequence(WithoutId(ks, id), ks)
    ensures |WithoutId(ks, id)| == |ks| <==> !HasId(ks, id)
    ensures !HasId(ks, id) ==> WithoutId(ks, id) == ks
  {
    FilterMembership(ks, (k: ApiKey) => k.id != id, x);
    FilterMultiset(ks, (k: ApiKey) => k.id != id, x);
    FilterIsSubsequence(ks, (k: ApiKey) => k.id != id);
    FilterLength(ks, (k: ApiKey) => k.id != id);
  }

  /** With unique ids, deleting a present id removes exactly one record. */
  lemma {:induction false} WithoutUniqueId(ks: seq<ApiKey>, id: string)
    requires UniqueIds(ks) && HasId(ks, id)
    ensures |WithoutId(ks, id)| == |ks| - 1
    decreases |ks|
  {
    var tail := ks[1..];
    assert forall i :: 0 <= i < |tail| ==> tail[i] == ks[i + 1];
    if ks[0].id == id {
      assert !HasId(tail, id);
      WithoutIdSpec(tail, id, ks[0]);
    } else {
      WithoutUniqueId(tail, id);
    }
  }

  /** Adding a record whose pair is not yet taken keeps pairs unique. */
  lemma AddKeepsPairsUnique(ks: seq<ApiKey>, k: ApiKey)
    requires UniquePairs(ks) && !HasPair(ks, k.service, k.name)
    ensures UniquePairs(ks + [k])
  {
    var ks' := ks + [k];
    forall i, j | 0 <= i < j < |ks'|
      ensures !(ks'[i].service == ks'[j].service && ks'[i].name == ks'[j].name)
    {
      if j == |ks| {
        assert ks'[i] == ks[i];
      }
    }
  }

  /** Update does not re-check (service, name): renaming one record onto
      another's pair is accepted and leaves the store with a duplicate
      pair. */
  lemma UpdateCanDuplicatePairs()
    ensures var a := ApiKey("a", "s", "n1", "k", None, None, None, 0, 0);
            var b := ApiKey("b", "s", "n2", "k", None, None, None, 0, 0);
            var ks := [a, b];
            var u := KeyUpdates(None, Some("n1"), None, None, None, None);
            UniquePairs(ks) && IndexOfId(ks, "b") == 1 && !UniquePairs(ks[1 := Merge(ks[1], u, 1)])
  {
    var a := ApiKey("a", "s", "n1", "k", None, None, None, 0, 0);
    var b := ApiKey("b", "s", "n2", "k", None, None, None, 0, 0);
    var u := KeyUpdates(None, Some("n1"), None, None, None, None);
    var ks' := [a, b][1 := Merge(b, u, 1)];
    assert ks'[0].service == ks'[1].service && ks'[0].name == ks'[1].name;
  }

  // ----------------------------------------------------------- the uuid

  /** `n` copies of the placeholder `x`. */
  function Xs(n: nat): (r: string)
    ensures |r| == n && forall i :: 0 <= i < n ==> r[i] == 'x'
  {
    seq(n, _ => 'x')
  }

  /** The template of the `generateUUID` fallback,
      `xxxxxxxx-xxxx-4xxx-yxxx-xxxxxxxxxxxx`, written by its groups. */
  const UuidTemplate: string := Xs(8) + "-" + Xs(4) + "-4" + Xs(3) + "-y" + Xs(3) + "-" + Xs(12)

  lemma UuidTemplateText()
    ensures UuidTemplate == "xxxxxxxx-xxxx-4xxx-yxxx-xxxxxxxxxxxx"
  {
  }

  /** `v.toString(16)` for a value below 16. */
  function HexDigit(v: bv4): char {
    "0123456789abcdef"[v as int]
  }

  predicate IsLowerHex(c: char) {
    ('0' <= c <= '9') || ('a' <= c <= 'f')
  }

  /** How many random draws the template replacement makes. */
  function CountXY(t: string): nat
    decreases |t|
  {
    if t == [] then 0 else (if t[0] == 'x' || t[0] == 'y' then 1 else 0) + CountXY(t[1..])
  }

  lemma {:induction false} CountXYAppend(a: string, b: string)
    ensures CountXY(a + b) == CountXY(a) + CountXY(b)
    decreases |a|
  {
    if a != [] {
      assert (a + b)[0] == a[0] && (a + b)[1..] == a[1..] + b;
      CountXYAppend(a[1..], b);
    } else {
      assert a + b == b;
    }
  }

  lemma {:induction false} CountXYXs(n: nat)
    ensures CountXY(Xs(n)) == n
    decreases n
  {
    if n > 0 {
      assert Xs(n)[1..] == Xs(n - 1);
      CountXYXs(n - 1);
    }
  }

  /** The template makes 31 random draws: 30 for `x` and one for `y`. */
  lemma UuidTemplateDraws()
    ensures CountXY(UuidTemplate) == 31
  {
    CountXYXs(8); CountXYXs(4); CountXYXs(3); CountXYXs(12);
    assert CountXY("-") == 0 && CountXY("-4") == 0 && CountXY("-y") == 1;
    var a := Xs(8) + "-";
    var b := a + Xs(4);
    var c := b + "-4";
    var d := c + Xs(3);
    var e := d + "-y";
    var f := e + Xs(3);
    var g := f + "-";
    CountXYAppend(Xs(8), "-");
    CountXYAppend(a, Xs(4));
    CountXYAppend(b, "-4");
    CountXYAppend(c, Xs(3));
    CountXYAppend(d, "-y");
    CountXYAppend(e, Xs(3));
    CountXYAppend(f, "-");
    CountXYAppend(g, Xs(12));
  }

  /** `t.replace(/[xy]/g, ...)`: each `x` becomes the next random nibble in
      hex, each `y` becomes `(r & 0x3 | 0x8)` in hex, every other character
      stays. */
  function ReplaceXY(t: string, nibbles: seq<bv4>): (r: string)
    requires |nibbles| == CountXY(t)
    ensures |r| == |t|
    ensures forall i :: 0 <= i < |t| && t[i] == 'x' ==> IsLowerHex(r[i])
    ensures forall i :: 0 <= i < |t| && t[i] == 'y' ==> r[i] in "89ab"
    ensures forall i :: 0 <= i < |t| && t[i] != 'x' && t[i] != 'y' ==> r[i] == t[i]
    decreases |t|
  {
    if t == [] then []
    else if t[0] == 'x' then [HexDigit(nibbles[0])] + ReplaceXY(t[1..], nibbles[1..])
    else if t[0] == 'y' then [HexDigit((nibbles[0] & 0x3) | 0x8)] + ReplaceXY(t[1..], nibbles[1..])
    else [t[0]] + ReplaceXY(t[1..], nibbles)
  }

  /** The fallback id: a version-4, variant-1 UUID in lower-case hex. */
  function FallbackUuid(nibbles: seq<bv4>): (r: string)
    requires |nibbles| == 31
    ensures |r| == 36
    ensures r[8] == '-' && r[13] == '-' && r[18] == '-' && r[23] == '-'
    ensures r[14] == '4' && r[19] in "89ab"
    ensures forall i :: 0 <= i < 36 && i !in {8, 13, 14, 18, 19, 23} ==> IsLowerHex(r[i])
  {
    UuidTemplateDraws();
    ReplaceXY(UuidTemplate, nibbles)
  }

  /** `generateUUID`: `crypto.randomUUID()` when it is available, the
      template otherwise. */
  function GenerateUuid(randomUuid: Option<string>, nibbles: seq<bv4>): (r: string)
    requires |nibbles| == 31
    ensures randomUuid.Some? ==> r == randomUuid.value
    ensures randomUuid.None? ==> r == FallbackUuid(nibbles)
    ensures randomUuid.None? ==> |r| == 36 && r[8] == '-' && r[13] == '-' && r[18] == '-' && r[23] == '-'
    ensures randomUuid.None? ==> r[14] == '4' && r[19] in "89ab"
    ensures randomUuid.None? ==> forall i :: 0 <= i < 36 && i !in {8, 13, 14, 18, 19, 23} ==> IsLowerHex(r[i])
  {
    if randomUuid.Some? then randomUuid.value else FallbackUuid(nibbles)
  }

  // ------------------------------------------------------------ the store

  /** `keys.findIndex(k => k.id === id)` as the scan it is. */
  method FindIndex(ks: seq<ApiKey>, id: string) returns (idx: int)
    ensures idx == IndexOfId(ks, id)
  {
    var i := 0;
    while i < |ks| && ks[i].id != id
      invariant 0 <= i <= |ks|
      invariant forall j :: 0 <= j < i ==> ks[j].id != id
    {
      i := i + 1;
    }
    idx := if i == |ks| then -1 else i;
  }

  /** Inserts `x` into a strictly ascending list of strings. */
  function InsertSorted(s: seq<string>, x: string): (r: seq<string>)
    requires StrictlyAscending(s) && x !in s
    ensures StrictlyAscending(r)
    ensures forall c :: c in r <==> c in s || c == x
    decreases |s|
  {
    if s == [] then [x]
    else if StrLess(x, s[0]) then
      AscendingCons(x, s);
      [x] + s
    else
      StrLessTotal(x, s[0]);
      var rest := InsertSorted(s[1..], x);
      AscendingCons(s[0], rest);
      [s[0]] + rest
  }

  /** Every later element is strictly greater. */
  predicate StrictlyAscending(s: seq<string>) {
    forall i, j :: 0 <= i < j < |s| ==> StrLess(s[i], s[j])
  }

  lemma AscendingIsDuplicateFree(s: seq<string>)
    requires StrictlyAscending(s)
    ensures forall i, j :: 0 <= i < j < |s| ==> s[i] != s[j]
  {
    forall i, j | 0 <= i < j < |s| ensures s[i] != s[j] { StrLessIrreflexive(s[i]); }
  }

  lemma AscendingCons(x: string, s: seq<string>)
    requires StrictlyAscending(s)
    requires s != [] ==> StrLess(x, s[0]) || (forall c :: c in s ==> StrLess(x, c))
    ensures s != [] ==> forall c :: c in s ==> StrLess(x, c)
    ensures StrictlyAscending([x] + s)
  {
    if s != [] && StrLess(x, s[0]) {
      forall c | c in s ensures StrLess(x, c) {
        var j :| 0 <= j < |s| && s[j] == c;
        if j > 0 { StrLessTransitive(x, s[0], c); }
      }
    }
    var t := [x] + s;
    forall i, j | 0 <= i < j < |t| ensures StrLess(t[i], t[j]) {
      if i == 0 { assert t[j] in s; } else { assert t[i] == s[i - 1] && t[j] == s[j - 1]; }
    }
  }

  /** `Array.from(categories).sort()` for a set of strings. */
  method SortStrings(cats: set<string>) returns (r: seq<string>)
    ensures StrictlyAscending(r)
    ensures forall c :: c in r <==> c in cats
  {
    r := [];
    var rest := cats;
    while rest != {}
      invariant rest <= cats
      invariant StrictlyAscending(r)
      invariant forall c :: c in r <==> c in cats && c !in rest
      decreases rest
    {
      var c :| c in rest;
      r := InsertSorted(r, c);
      rest := rest - {c};
    }
  }

  class KeyStore {
    /** The storage file `~/.raycast-api-keys/api-keys.json`. */
    var file: FileState

    constructor(initial: FileState)
      ensures file == initial
    {
      file := initial;
    }

    /** `getApiKeys`: a missing file is an empty list, any other failure to
        read or parse it is an error. */
    method GetApiKeys() returns (r: Result<seq<ApiKey>, StoreError>)
      ensures file.Missing? ==> r == Ok([])
      ensures file.Unreadable? ==> r == Err(ReadFailed)
      ensures file.Contents? ==> r == Ok(file.keys)
    {
      r := LoadKeys(file);
    }

    /** `saveApiKeys`: rewrites the whole file. */
    method SaveApiKeys(ks: seq<ApiKey>, saveOk: bool) returns (r: Result<(), StoreError>)
      modifies this
      ensures saveOk ==> r == Ok(()) && file == Contents(ks)
      ensures !saveOk ==> r == Err(WriteFailed) && file == old(file)
    {
      if saveOk {
        file := Contents(ks);
        r := Ok(());
      } else {
        r := Err(WriteFailed);
      }
    }

    /** `addApiKey`: refuses a taken (service, name) pair, otherwise appends
        one new record stamped `createdAt == updatedAt == now`. */
    method AddApiKey(id: string, now: Timestamp, saveOk: bool,
                     service: string, name: string, key: string,
                     categories: seq<string> := [], notes: string := "")
      returns (r: Result<ApiKey, StoreError>)
      modifies this
      ensures old(file).Unreadable? ==> r == Err(ReadFailed)
      ensures !old(file).Unreadable? && HasPair(StoredKeys(old(file)), service, name) ==> r == Err(DuplicateKey)
      ensures !old(file).Unreadable? && !HasPair(StoredKeys(old(file)), service, name) && !saveOk ==> r == Err(WriteFailed)
      ensures r.Err? ==> file == old(file)
      ensures r.Ok? <==> !old(file).Unreadable? && !HasPair(StoredKeys(old(file)), service, name) && saveOk
      ensures r.Ok? ==> r.value == ApiKey(id, service, name, key, Some(categories), None, Some(notes), now, now)
      ensures r.Ok? ==> file == Contents(StoredKeys(old(file)) + [r.value])
    {
      var loaded := GetApiKeys();
      if loaded.Err? {
        return Err(loaded.error);
      }
      var keys := loaded.value;
      if HasPair(keys, service, name) {
        return Err(DuplicateKey);
      }
      var apiKey := ApiKey(id, service, name, key, Some(categories), None, Some(notes), now, now);
      keys := keys + [apiKey];
      var saved := SaveApiKeys(keys, saveOk);
      if saved.Err? {
        return Err(saved.error);
      }
      return Ok(apiKey);
    }

    /** `updateApiKey`: merges `updates` into the first record with the id;
        an unknown id is an error and nothing is written. */
    method UpdateApiKey(id: string, updates: KeyUpdates, now: Timestamp, saveOk: bool)
      returns (r: Result<(), StoreError>)
      modifies this
      ensures old(file).Unreadable? ==> r == Err(ReadFailed)
      ensures !old(file).Unreadable? && !HasId(StoredKeys(old(file)), id) ==> r == Err(NotFound)
      ensures !old(file).Unreadable? && HasId(StoredKeys(old(file)), id) && !saveOk ==> r == Err(WriteFailed)
      ensures r.Err? ==> file == old(file)
      ensures r.Ok? <==> !old(file).Unreadable? && HasId(StoredKeys(old(file)), id) && saveOk
      ensures r.Ok? ==>
        var ks := StoredKeys(old(file));
        var i := IndexOfId(ks, id);
        file == Contents(ks[i := Merge(ks[i], updates, now)])
    {
      var loaded := GetApiKeys();
      if loaded.Err? {
        return Err(loaded.error);
      }
      var keys := loaded.value;
      var idx := FindIndex(keys, id);
      if idx == -1 {
        return Err(NotFound);
      }
      keys := keys[idx := Merge(keys[idx], updates, now)];
      var saved := SaveApiKeys(keys, saveOk);
      if saved.Err? {
        return Err(saved.error);
      }
      return Ok(());
    }

    /** `updateKeyLastUsed`: best effort; an unknown id or any failure
        leaves the file as it was and reports nothing. */
    method UpdateKeyLastUsed(id: string, now: Timestamp, saveOk: bool)
      modifies this
      ensures old(file).Unreadable? ==> file == old(file)
      ensures !old(file).Unreadable? && !HasId(StoredKeys(old(file)), id) ==> file == old(file)
      ensures !old(file).Unreadable? && HasId(StoredKeys(old(file)), id) ==>
        var ks := StoredKeys(old(file));
        var i := IndexOfId(ks, id);
        file == if saveOk then Contents(ks[i := ks[i].(lastUsed := Some(now))]) else old(file)
    {
      var loaded := GetApiKeys();
      if loaded.Err? {
        return;
      }
      var keys := loaded.value;
      var idx := FindIndex(keys, id);
      if idx == -1 {
        return;
      }
      keys := keys[idx := keys[idx].(lastUsed := Some(now))];
      var _ := SaveApiKeys(keys, saveOk);
    }

    /** `deleteApiKey`: drops every record with the id; fails, writing
        nothing, when none has it. */
    method DeleteApiKey(id: string, saveOk: bool) returns (r: Result<(), StoreError>)
      modifies this
      ensures old(file).Unreadable? ==> r == Err(ReadFailed)
      ensures !old(file).Unreadable? && !HasId(StoredKeys(old(file)), id) ==> r == Err(NotFound)
      ensures !old(file).Unreadable? && HasId(StoredKeys(old(file)), id) && !saveOk ==> r == Err(WriteFailed)
      ensures r.Err? ==> file == old(file)
      ensures r.Ok? <==> !old(file).Unreadable? && HasId(StoredKeys(old(file)), id) && saveOk
      ensures r.Ok? ==> file == Contents(WithoutId(StoredKeys(old(file)), id))
    {
      var loaded := GetApiKeys();
      if loaded.Err? {
        return Err(loaded.error);
      }
      var keys := loaded.value;
      var initialLength := |keys|;
      var filtered := WithoutId(keys, id);
      WithoutIdSpec(keys, id, ApiKey(id, "", "", "", None, None, None, 0, 0));
      if |filtered| == initialLength {
        return Err(NotFound);
      }
      var saved := SaveApiKeys(filtered, saveOk);
      if saved.Err? {
        return Err(saved.error);
      }
      return Ok(());
    }

    /** `getAllCategories`: the union of all records' categories, sorted and
        without duplicates. */
    method GetAllCategories() returns (r: Result<seq<string>, StoreError>)
      ensures file.Unreadable? <==> r.Err?
      ensures r.Err? ==> r.error == ReadFailed
      ensures r.Ok? ==> StrictlyAscending(r.value)
      ensures r.Ok? ==> forall c :: c in r.value <==> c in CategoryUnion(StoredKeys(file))
    {
      var loaded := GetApiKeys();
      if loaded.Err? {
        return Err(loaded.error);
      }
      var keys := loaded.value;
      var categories: set<string> := {};
      for i := 0 to |keys|
        invariant categories == CategoryUnion(keys[..i])
      {
        var k := keys[i];
        assert keys[..i + 1][..i] == keys[..i];
        if k.categories.Some? && |k.categories.value| > 0 {
          var cs := k.categories.value;
          for j := 0 to |cs|
            invariant categories == CategoryUnion(keys[..i]) + set c | c in cs[..j]
          {
            assert forall c :: c in cs[..j + 1] <==> c in cs[..j] || c == cs[j];
            categories := categories + {cs[j]};
          }
          assert cs[..|cs|] == cs;
        }
      }
      assert keys[..|keys|] == keys;
      var sorted := SortStrings(categories);
      return Ok(sorted);
    }

    /** `getKeysByCategory`. */
    method GetKeysByCategory(category: string) returns (r: Result<seq<ApiKey>, StoreError>)
      ensures file.Unreadable? <==> r.Err?
      ensures r.Err? ==> r.error == ReadFailed
      ensures r.Ok? ==> r.value == KeysByCategory(StoredKeys(file), category)
    {
      var loaded := GetApiKeys();
      if loaded.Err? {
        return Err(loaded.error);
      }
      return Ok(KeysByCategory(loaded.value, category));
    }
  }
}
