/** The rewriting of values before they enter the audit log: secrets redacted, depth and array length bounded. */
module Sanitize {
  import opened Text

  /**
   A JavaScript value. An object lists its own enumerable properties in order; `Date` holds the text of
   `toISOString`, `Other` (functions, symbols, big integers) the text of `String(value)`.
   */
  datatype Value =
    | Null
    | Undefined
    | Bool(b: bool)
    | Num(n: real)
    | Str(s: string)
    | Date(iso: string)
    | Other(text: string)
    | Arr(items: seq<Value>)
    | Obj(entries: seq<Entry>)

  datatype Entry = Entry(key: string, value: Value)

  const REDACT_KEYS: set<string> := {
    "password", "passwordhash", "token", "apikey", "secretkey", "credentialsenc", "webhooksecret",
    "twofactorsecret", "backupcodes", "refreshtoken"
  }

  const REDACTED := Str("[redacted]")
  const TRUNCATED := Str("[truncated]")

  predicate IsSecret(key: string, lower: Fold) {
    lower(key) in REDACT_KEYS
  }

  function SanitizeForAudit(value: Value, depth: nat, lower: Fold): Value
    decreases value, 1
  {
    if depth > 4 then TRUNCATED
    else
      match value
      case Date(iso) => Str(iso)
      case Other(text) => Str(text)
      case Arr(items) => Arr(SanitizeItems(if |items| > 20 then items[..20] else items, depth + 1, lower))
      case Obj(entries) => Obj(SanitizeEntries(entries, depth + 1, lower))
      case _ => value
  }

  function SanitizeItems(items: seq<Value>, depth: nat, lower: Fold): (r: seq<Value>)
    ensures |r| == |items|
    decreases items, 0
  {
    if items == [] then []
    else [SanitizeForAudit(items[0], depth, lower)] + SanitizeItems(items[1..], depth, lower)
  }

  function SanitizeEntries(entries: seq<Entry>, depth: nat, lower: Fold): (r: seq<Entry>)
    ensures |r| == |entries|
    decreases entries, 0
  {
    if entries == [] then []
    else
      var e := entries[0];
      var value := if IsSecret(e.key, lower) then REDACTED else SanitizeForAudit(e.value, depth, lower);
      [Entry(e.key, value)] + SanitizeEntries(entries[1..], depth, lower)
  }

  // ----- What is kept -----

  /** Exactly the ten secret names are redacted, in any case. */
  lemma {:induction false} SecretNames(key: string, lower: Fold)
    ensures IsSecret(key, lower) <==>
      var name := lower(key);
      || name == "password" || name == "passwordhash" || name == "token" || name == "apikey"
      || name == "secretkey" || name == "credentialsenc" || name == "webhooksecret"
      || name == "twofactorsecret" || name == "backupcodes" || name == "refreshtoken"
  {
  }

  /** The value at a path of positions, each in an array or in the properties of an object. */
  function At(v: Value, path: seq<nat>): Option<Value>
    decreases path
  {
    if path == [] then Some(v)
    else
      match v
      case Arr(items) => if path[0] < |items| then At(items[path[0]], path[1..]) else None
      case Obj(entries) => if path[0] < |entries| then At(entries[path[0]].value, path[1..]) else None
      case _ => None
  }

  /** The path leads through no secret property and through no array element past the twentieth. */
  predicate IsOpen(v: Value, path: seq<nat>, lower: Fold)
    decreases path
  {
    path != [] ==>
      match v
      case Arr(items) => path[0] < |items| && path[0] < 20 && IsOpen(items[path[0]], path[1..], lower)
      case Obj(entries) =>
        && path[0] < |entries| && !IsSecret(entries[path[0]].key, lower)
        && IsOpen(entries[path[0]].value, path[1..], lower)
      case _ => false
  }

  /** How a value is logged, looking no deeper than at its own shape. */
  predicate ShowsAs(v: Value, logged: Value) {
    match v
    case Date(iso) => logged == Str(iso)
    case Other(text) => logged == Str(text)
    case Arr(items) => logged.Arr? && |logged.items| == if |items| < 20 then |items| else 20
    case Obj(entries) =>
      && logged.Obj? && |logged.entries| == |entries|
      && forall i :: 0 <= i < |entries| ==> logged.entries[i].key == entries[i].key
    case _ => logged == v
  }

  lemma {:induction false} ItemAt(items: seq<Value>, i: nat, depth: nat, lower: Fold)
    requires i < |items|
    ensures SanitizeItems(items, depth, lower)[i] == SanitizeForAudit(items[i], depth, lower)
  {
    if i > 0 {
      ItemAt(items[1..], i - 1, depth, lower);
    }
  }

  lemma {:induction false} EntryAt(entries: seq<Entry>, i: nat, depth: nat, lower: Fold)
    requires i < |entries|
    ensures var logged := SanitizeEntries(entries, depth, lower)[i];
      && logged.key == entries[i].key
      && logged.value == if IsSecret(entries[i].key, lower) then Str("[redacted]")
                         else SanitizeForAudit(entries[i].value, depth, lower)
  {
    if i > 0 {
      EntryAt(entries[1..], i - 1, depth, lower);
    }
  }

  lemma {:induction false} RootShows(v: Value, depth: nat, lower: Fold)
    requires depth <= 4
    ensures ShowsAs(v, SanitizeForAudit(v, depth, lower))
  {
    if v.Obj? {
      forall i | 0 <= i < |v.entries|
        ensures SanitizeForAudit(v, depth, lower).entries[i].key == v.entries[i].key
      {
        EntryAt(v.entries, i, depth + 1, lower);
      }
    }
  }

  /**
   Along every open path that does not go too deep the log holds what the value holds there: scalars as they are,
   dates and others as their texts, arrays cut to the first twenty items, objects with all keys in order. One level
   deeper it holds the truncation mark.
   */
  lemma {:induction false} PathsSurvive(v: Value, path: seq<nat>, depth: nat, lower: Fold)
    requires IsOpen(v, path, lower) && depth + |path| <= 5
    ensures var there, logged := At(v, path), At(SanitizeForAudit(v, depth, lower), path);
      && there.Some? && logged.Some?
      && (depth + |path| <= 4 ==> ShowsAs(there.value, logged.value))
      && (depth + |path| == 5 ==> logged.value == Str("[truncated]"))
    decreases path
  {
    if path == [] {
      if depth <= 4 {
        RootShows(v, depth, lower);
      }
    } else {
      hide At, IsOpen, SanitizeForAudit, ShowsAs;
      var child := OneLevelDown(v, path, depth, lower);
      PathsSurvive(child, path[1..], depth + 1, lower);
    }
  }

  /** An open path goes on in the value its first position leads to, and the log does the same. */
  lemma {:induction false} OneLevelDown(v: Value, path: seq<nat>, depth: nat, lower: Fold) returns (child: Value)
    requires path != [] && IsOpen(v, path, lower) && depth <= 4
    ensures IsOpen(child, path[1..], lower) && At(v, path) == At(child, path[1..])
    ensures At(SanitizeForAudit(v, depth, lower), path) == At(SanitizeForAudit(child, depth + 1, lower), path[1..])
  {
    hide SanitizeForAudit, IsSecret;
    Below(v, path[0], depth, lower);
    child := match v
      case Arr(items) => items[path[0]]
      case Obj(entries) => entries[path[0]].value;
  }

  lemma {:induction false} Below(v: Value, i: nat, depth: nat, lower: Fold)
    requires IsOpen(v, [i], lower) && depth <= 4
    ensures var logged := SanitizeForAudit(v, depth, lower);
      match v
      case Arr(items) =>
        logged.Arr? && i < |logged.items| && logged.items[i] == SanitizeForAudit(items[i], depth + 1, lower)
      case Obj(entries) =>
        && logged.Obj? && i < |logged.entries|
        && logged.entries[i].value == SanitizeForAudit(entries[i].value, depth + 1, lower)
      case _ => false
  {
    match v
    case Arr(items) => ItemAt(if |items| > 20 then items[..20] else items, i, depth + 1, lower);
    case Obj(entries) => EntryAt(entries, i, depth + 1, lower);
    case _ =>
  }

  /** A secret property at the end of an open path is logged as the redaction mark. */
  lemma {:induction false} SecretsAreMarked(v: Value, path: seq<nat>, i: nat, depth: nat, lower: Fold)
    requires IsOpen(v, path, lower) && depth + |path| <= 4
    requires var there := At(v, path);
      there.Some? && there.value.Obj? && i < |there.value.entries| && IsSecret(there.value.entries[i].key, lower)
    ensures var logged := At(SanitizeForAudit(v, depth, lower), path);
      && logged.Some? && logged.value.Obj? && i < |logged.value.entries|
      && logged.value.entries[i] == Entry(At(v, path).value.entries[i].key, Str("[redacted]"))
    decreases path
  {
    if path == [] {
      EntryAt(v.entries, i, depth + 1, lower);
    } else {
      hide At, IsOpen, SanitizeForAudit, IsSecret;
      var child := OneLevelDown(v, path, depth, lower);
      SecretsAreMarked(child, path[1..], i, depth + 1, lower);
    }
  }

  // ----- Secrets do not matter -----

  /** The two values are the same except below redacted keys, where anything goes. */
  predicate SameButSecrets(v: Value, w: Value, lower: Fold)
    decreases v, 1
  {
    match v
    case Arr(items) => w.Arr? && SameItems(items, w.items, lower)
    case Obj(entries) => w.Obj? && SameEntries(entries, w.entries, lower)
    case _ => v == w
  }

  predicate SameItems(a: seq<Value>, b: seq<Value>, lower: Fold)
    decreases a, 0
  {
    |a| == |b| && (a != [] ==> SameButSecrets(a[0], b[0], lower) && SameItems(a[1..], b[1..], lower))
  }

  predicate SameEntries(a: seq<Entry>, b: seq<Entry>, lower: Fold)
    decreases a, 0
  {
    |a| == |b| && (a != [] ==>
      && a[0].key == b[0].key
      && (IsSecret(a[0].key, lower) || SameButSecrets(a[0].value, b[0].value, lower))
      && SameEntries(a[1..], b[1..], lower))
  }

  lemma {:induction false} SamePrefix(a: seq<Value>, b: seq<Value>, n: nat, lower: Fold)
    requires SameItems(a, b, lower) && n <= |a|
    ensures SameItems(a[..n], b[..n], lower)
  {
    if n > 0 {
      SamePrefix(a[1..], b[1..], n - 1, lower);
      assert a[..n][1..] == a[1..][..n - 1] && b[..n][1..] == b[1..][..n - 1];
    }
  }

  /** Non-interference: what is logged does not depend on anything below a redacted key. */
  lemma {:induction false} SecretsDoNotShow(v: Value, w: Value, depth: nat, lower: Fold)
    requires SameButSecrets(v, w, lower)
    ensures SanitizeForAudit(v, depth, lower) == SanitizeForAudit(w, depth, lower)
    decreases v, 1
  {
    if depth <= 4 {
      match v
      case Arr(items) =>
        if |items| > 20 {
          SamePrefix(items, w.items, 20, lower);
          SecretsDoNotShowInItems(items[..20], w.items[..20], depth + 1, lower);
        } else {
          SecretsDoNotShowInItems(items, w.items, depth + 1, lower);
        }
      case Obj(entries) =>
        SecretsDoNotShowInEntries(entries, w.entries, depth + 1, lower);
      case _ =>
    }
  }

  lemma {:induction false} SecretsDoNotShowInItems(a: seq<Value>, b: seq<Value>, depth: nat, lower: Fold)
    requires SameItems(a, b, lower)
    ensures SanitizeItems(a, depth, lower) == SanitizeItems(b, depth, lower)
    decreases a, 0
  {
    if a != [] {
      SecretsDoNotShow(a[0], b[0], depth, lower);
      SecretsDoNotShowInItems(a[1..], b[1..], depth, lower);
    }
  }

  lemma {:induction false} SecretsDoNotShowInEntries(a: seq<Entry>, b: seq<Entry>, depth: nat, lower: Fold)
    requires SameEntries(a, b, lower)
    ensures SanitizeEntries(a, depth, lower) == SanitizeEntries(b, depth, lower)
    decreases a, 0
  {
    if a != [] {
      if !IsSecret(a[0].key, lower) {
        SecretsDoNotShow(a[0].value, b[0].value, depth, lower);
      }
      SecretsDoNotShowInEntries(a[1..], b[1..], depth, lower);
    }
  }

  // ----- What comes out, and what is left alone -----

  /**
   Fit to be logged at a depth: plain values only, arrays of at most twenty, nothing but the redaction mark
   under a redacted key, and below the fourth level nothing but the truncation mark.
   */
  predicate Clean(v: Value, depth: nat, lower: Fold)
    decreases v, 1
  {
    if depth > 4 then v == TRUNCATED
    else
      match v
      case Date(_) => false
      case Other(_) => false
      case Arr(items) => |items| <= 20 && CleanItems(items, depth + 1, lower)
      case Obj(entries) => CleanEntries(entries, depth + 1, lower)
      case _ => true
  }

  predicate CleanItems(items: seq<Value>, depth: nat, lower: Fold)
    decreases items, 0
  {
    items != [] ==> Clean(items[0], depth, lower) && CleanItems(items[1..], depth, lower)
  }

  predicate CleanEntries(entries: seq<Entry>, depth: nat, lower: Fold)
    decreases entries, 0
  {
    entries != [] ==>
      && (if IsSecret(entries[0].key, lower) then entries[0].value == REDACTED
          else Clean(entries[0].value, depth, lower))
      && CleanEntries(entries[1..], depth, lower)
  }

  /** Every result is clean. */
  lemma {:induction false} ResultIsClean(v: Value, depth: nat, lower: Fold)
    ensures Clean(SanitizeForAudit(v, depth, lower), depth, lower)
    decreases v, 1
  {
    if depth <= 4 {
      match v
      case Arr(items) =>
        ItemsAreClean(if |items| > 20 then items[..20] else items, depth + 1, lower);
      case Obj(entries) =>
        EntriesAreClean(entries, depth + 1, lower);
      case _ =>
    }
  }

  lemma {:induction false} ItemsAreClean(items: seq<Value>, depth: nat, lower: Fold)
    ensures CleanItems(SanitizeItems(items, depth, lower), depth, lower)
    decreases items, 0
  {
    if items != [] {
      ResultIsClean(items[0], depth, lower);
      ItemsAreClean(items[1..], depth, lower);
      assert SanitizeItems(items, depth, lower)[1..] == SanitizeItems(items[1..], depth, lower);
    }
  }

  lemma {:induction false} EntriesAreClean(entries: seq<Entry>, depth: nat, lower: Fold)
    ensures CleanEntries(SanitizeEntries(entries, depth, lower), depth, lower)
    decreases entries, 0
  {
    if entries != [] {
      ResultIsClean(entries[0].value, depth, lower);
      EntriesAreClean(entries[1..], depth, lower);
      assert SanitizeEntries(entries, depth, lower)[1..] == SanitizeEntries(entries[1..], depth, lower);
    }
  }

  /** Exactly the clean values are logged as they are. */
  lemma {:induction false} CleanIsUnchanged(v: Value, depth: nat, lower: Fold)
    ensures SanitizeForAudit(v, depth, lower) == v <==> Clean(v, depth, lower)
    decreases v, 1
  {
    ResultIsClean(v, depth, lower);
    if Clean(v, depth, lower) && depth <= 4 {
      match v
      case Arr(items) => CleanItemsUnchanged(items, depth + 1, lower);
      case Obj(entries) => CleanEntriesUnchanged(entries, depth + 1, lower);
      case _ =>
    }
  }

  lemma {:induction false} CleanItemsUnchanged(items: seq<Value>, depth: nat, lower: Fold)
    requires CleanItems(items, depth, lower)
    ensures SanitizeItems(items, depth, lower) == items
    decreases items, 0
  {
    if items != [] {
      CleanIsUnchanged(items[0], depth, lower);
      CleanItemsUnchanged(items[1..], depth, lower);
    }
  }

  lemma {:induction false} CleanEntriesUnchanged(entries: seq<Entry>, depth: nat, lower: Fold)
    requires CleanEntries(entries, depth, lower)
    ensures SanitizeEntries(entries, depth, lower) == entries
    decreases entries, 0
  {
    if entries != [] {
      CleanIsUnchanged(entries[0].value, depth, lower);
      CleanEntriesUnchanged(entries[1..], depth, lower);
    }
  }

  /** Sanitising twice is sanitising once. */
  lemma {:induction false} SanitizeTwice(v: Value, depth: nat, lower: Fold)
    ensures var once := SanitizeForAudit(v, depth, lower);
      SanitizeForAudit(once, depth, lower) == once
  {
    ResultIsClean(v, depth, lower);
    CleanIsUnchanged(SanitizeForAudit(v, depth, lower), depth, lower);
  }

  // ----- Size of the result -----

  function Max(a: nat, b: nat): nat {
    if a < b then b else a
  }

  /** How many containers are nested in each other. */
  function Nesting(v: Value): nat
    decreases v, 1
  {
    match v
    case Arr(items) => 1 + ItemsNesting(items)
    case Obj(entries) => 1 + EntriesNesting(entries)
    case _ => 0
  }

  function ItemsNesting(items: seq<Value>): nat
    decreases items, 0
  {
    if items == [] then 0 else Max(Nesting(items[0]), ItemsNesting(items[1..]))
  }

  function EntriesNesting(entries: seq<Entry>): nat
    decreases entries, 0
  {
    if entries == [] then 0 else Max(Nesting(entries[0].value), EntriesNesting(entries[1..]))
  }

  lemma {:induction false} CleanIsShallow(v: Value, depth: nat, lower: Fold)
    requires Clean(v, depth, lower) && depth <= 5
    ensures Nesting(v) <= 5 - depth
    decreases v, 1
  {
    match v
    case Arr(items) => CleanItemsAreShallow(items, depth + 1, lower);
    case Obj(entries) => CleanEntriesAreShallow(entries, depth + 1, lower);
    case _ =>
  }

  lemma {:induction false} CleanItemsAreShallow(items: seq<Value>, depth: nat, lower: Fold)
    requires CleanItems(items, depth, lower) && depth <= 5
    ensures ItemsNesting(items) <= 5 - depth
    decreases items, 0
  {
    if items != [] {
      CleanIsShallow(items[0], depth, lower);
      CleanItemsAreShallow(items[1..], depth, lower);
    }
  }

  lemma {:induction false} CleanEntriesAreShallow(entries: seq<Entry>, depth: nat, lower: Fold)
    requires CleanEntries(entries, depth, lower) && depth <= 5
    ensures EntriesNesting(entries) <= 5 - depth
    decreases entries, 0
  {
    if entries != [] {
      if !IsSecret(entries[0].key, lower) {
        CleanIsShallow(entries[0].value, depth, lower);
      }
      CleanEntriesAreShallow(entries[1..], depth, lower);
    }
  }

  /** Whatever goes in, what is logged nests at most five containers, the deepest scalars being marks. */
  lemma {:induction false} ResultIsShallow(v: Value, lower: Fold)
    ensures Nesting(SanitizeForAudit(v, 0, lower)) <= 5
  {
    ResultIsClean(v, 0, lower);
    CleanIsShallow(SanitizeForAudit(v, 0, lower), 0, lower);
  }
}
