/**
 The telemetry envelope: items, batches, redaction and encoded size.

 A Go `Batch` is a struct that `WithItems` copies and that only `Add` updates, so it is a
 datatype here and `Add` returns the updated value.
 */
module Envelope {
  import opened Wrappers

  /** A payload: the JSON shapes `Redact` recurses into, and every other Go value as `Typed`. */
  datatype Value =
    | Null
    | Bool(b: bool)
    | Num(n: int)
    | Str(s: string)
    | List(elems: seq<Value>)
    | Obj(fields: map<string, Value>)
    | Typed(repr: string)

  datatype Item = Item(
    itemId: string, sequence: nat, kind: string, typ: string, key: string, payload: Value)

  /** The fields that every chunk of one batch shares. */
  datatype Header = Header(
    schemaVersion: string, batchId: string, source: string, sourceId: string, tenantId: string,
    observedAt: int, sentAt: int)

  datatype Batch = Batch(header: Header, chunkIndex: nat, chunkCount: nat, items: seq<Item>)

  /**
   What JSON and SHA-256 do, as far as the agent can see it: how many bytes an item takes (None
   when it cannot be marshalled), how many bytes the header and the fixed punctuation take, and
   the digest of a marshalled payload.
   */
  datatype Codec = Codec(
    itemBytes: Item -> Option<nat>,
    headerBytes: Header -> nat,
    digest: Value -> Option<string>)

  const SCHEMA_VERSION := "1.1"
  const REDACTED := Str("[REDACTED]")

  // ---------------------------------------------------------------- sensitive keys

  function Lower(c: char): char {
    if 'A' <= c <= 'Z' then c + 32 as char else c
  }

  /** strings.ToLower(strings.ReplaceAll(key, "-", "_")) on ASCII. */
  function Normalize(key: string): string {
    seq(|key|, i requires 0 <= i < |key| => if key[i] == '-' then '_' else Lower(key[i]))
  }

  predicate OccursAt(s: string, needle: string, i: nat) {
    i + |needle| <= |s| && s[i..i + |needle|] == needle
  }

  predicate Contains(s: string, needle: string) {
    exists i: nat | i <= |s| :: OccursAt(s, needle, i)
  }

  const NEEDLES := ["token", "password", "secret", "authorization", "credential"]

  predicate IsSensitiveKey(key: string) {
    var n := Normalize(key);
    n == "key" || n == "api_key" || n == "apikey" ||
    exists j | 0 <= j < |NEEDLES| :: Contains(n, NEEDLES[j])
  }

  /** A key that lacks one letter of every needle, and is none of the three exact names, is safe. */
  lemma MissingLettersAreSafe(key: string)
    requires |key| > 7 || key == "deleted"
    requires forall c | c in key :: c in "abcdefghijlmnopqstuvxy_"
    ensures !IsSensitiveKey(key)
  {
    var n := Normalize(key);
    forall i | 0 <= i < |n| ensures n[i] !in "krwz" {
      assert key[i] in key;
    }
    forall j | 0 <= j < |NEEDLES| ensures !Contains(n, NEEDLES[j]) {
      var needle := NEEDLES[j];
      var at := [2, 4, 3, 7, 1][j];
      assert needle[at] in "krwz";
      forall i: nat | i + |needle| <= |n| ensures !OccursAt(n, needle, i) {
        assert n[i..i + |needle|][at] == n[i + at];
      }
    }
    if key == "deleted" {
      assert n[0] == 'd';
    }
  }

  /** The keys the agent itself adds to a payload survive redaction. */
  lemma MetadataKeysAreNotSensitive()
    ensures !IsSensitiveKey("snapshot_id")
    ensures !IsSensitiveKey("snapshot_item_count")
    ensures !IsSensitiveKey("snapshot_full")
    ensures !IsSensitiveKey("deleted")
  {
    MissingLettersAreSafe("snapshot_id");
    MissingLettersAreSafe("snapshot_item_count");
    MissingLettersAreSafe("snapshot_full");
    MissingLettersAreSafe("deleted");
  }

  // ---------------------------------------------------------------- redaction

  function Redact(value: Value): Value {
    match value
    case Obj(f) => Obj(map k | k in f :: if IsSensitiveKey(k) then REDACTED else Redact(f[k]))
    case List(e) => List(seq(|e|, i requires 0 <= i < |e| => Redact(e[i])))
    case _ => value
  }

  lemma RedactField(fields: map<string, Value>, k: string)
    requires k in fields
    ensures k in Redact(Obj(fields)).fields
    ensures Redact(Obj(fields)).fields[k] == if IsSensitiveKey(k) then REDACTED else Redact(fields[k])
  {
  }

  /** No object reachable through objects and lists holds a readable value at a sensitive key. */
  ghost predicate Sanitized(value: Value) {
    match value
    case Obj(f) => forall k | k in f :: if IsSensitiveKey(k) then f[k] == REDACTED else Sanitized(f[k])
    case List(e) => forall i | 0 <= i < |e| :: Sanitized(e[i])
    case _ => true
  }

  lemma {:induction false} RedactSanitizes(value: Value)
    ensures Sanitized(Redact(value))
  {
    match value
    case Obj(f) =>
      forall k | k in f && !IsSensitiveKey(k) ensures Sanitized(Redact(f[k])) {
        RedactSanitizes(f[k]);
      }
    case List(e) =>
      forall i | 0 <= i < |e| ensures Sanitized(Redact(e[i])) {
        RedactSanitizes(e[i]);
      }
    case _ =>
  }

  /** Redaction changes a payload exactly when there is something to redact. */
  lemma {:induction false} RedactFixesExactlySanitized(value: Value)
    ensures Redact(value) == value <==> Sanitized(value)
  {
    match value
    case Obj(f) =>
      forall k | k in f ensures Redact(f[k]) == f[k] <==> Sanitized(f[k]) {
        RedactFixesExactlySanitized(f[k]);
      }
      var g := Redact(value).fields;
      if Sanitized(value) {
        assert g == f;
      } else {
        var k :| k in f && (if IsSensitiveKey(k) then f[k] != REDACTED else !Sanitized(f[k]));
        assert g[k] != f[k];
      }
    case List(e) =>
      forall i | 0 <= i < |e| ensures Redact(e[i]) == e[i] <==> Sanitized(e[i]) {
        RedactFixesExactlySanitized(e[i]);
      }
      var g := Redact(value).elems;
      if Sanitized(value) {
        assert g == e;
      } else {
        var i :| 0 <= i < |e| && !Sanitized(e[i]);
        assert g[i] != e[i];
      }
    case _ =>
  }

  // ---------------------------------------------------------------- batches

  function Decimal(n: nat): (s: string)
    ensures |s| > 0
  {
    if n < 10 then ["0123456789"[n]] else Decimal(n / 10) + ["0123456789"[n % 10]]
  }

  /** The decimal width of a number never shrinks as the number grows. */
  lemma {:induction false} DecimalWidthMonotone(a: nat, b: nat)
    requires a <= b
    ensures |Decimal(a)| <= |Decimal(b)|
  {
    if a >= 10 {
      DecimalWidthMonotone(a / 10, b / 10);
    }
  }

  function NewBatch(batchId: string, source: string, sourceId: string, tenantId: string, now: int): Batch {
    Batch(Header(SCHEMA_VERSION, batchId, source, sourceId, tenantId, now, now), 0, 1, [])
  }

  /** The item as `Add` stores it: numbered, identified and redacted. */
  function Stamp(batch: Batch, item: Item): Item {
    item.(
      sequence := |batch.items|,
      itemId := if item.itemId == "" then batch.header.batchId + ":" + Decimal(|batch.items|) else item.itemId,
      payload := Redact(item.payload))
  }

  function Add(batch: Batch, item: Item): Batch {
    batch.(items := batch.items + [Stamp(batch, item)])
  }

  function WithItems(batch: Batch, items: seq<Item>, chunkIndex: nat, chunkCount: nat): Batch {
    batch.(items := items, chunkIndex := chunkIndex, chunkCount := chunkCount)
  }

  // ---------------------------------------------------------------- encoded size

  predicate Marshals(codec: Codec, items: seq<Item>) {
    forall i | 0 <= i < |items| :: codec.itemBytes(items[i]).Some?
  }

  /** The bytes between the brackets of the encoded item list: the items and the commas. */
  function ListBytes(codec: Codec, items: seq<Item>): nat
    requires Marshals(codec, items)
  {
    if items == [] then 0
    else
      ListBytes(codec, items[..|items| - 1]) + codec.itemBytes(items[|items| - 1]).value
      + if |items| > 1 then 1 else 0
  }

  /**
   The length of json.Marshal(batch). `WithItems` turns an empty item list into a nil slice, which
   Go encodes as `null`; any other list costs two brackets and what stands between them.
   */
  function EncodedBytes(codec: Codec, batch: Batch): nat
    requires Marshals(codec, batch.items)
  {
    codec.headerBytes(batch.header) + |Decimal(batch.chunkIndex)| + |Decimal(batch.chunkCount)|
    + if batch.items == [] then |"null"| else |"[]"| + ListBytes(codec, batch.items)
  }

  /** A contiguous part of an item list never costs more than the whole. */
  lemma {:induction false} ListBytesMonotone(codec: Codec, items: seq<Item>, lo: nat, hi: nat)
    requires Marshals(codec, items) && lo <= hi <= |items|
    ensures ListBytes(codec, items[lo..hi]) <= ListBytes(codec, items)
    decreases |items|
  {
    if hi < |items| {
      var init := items[..|items| - 1];
      assert init[lo..hi] == items[lo..hi];
      ListBytesMonotone(codec, init, lo, hi);
    } else if lo < hi {
      var init := items[..|items| - 1];
      assert init[lo..hi - 1] == items[lo..hi][..hi - lo - 1];
      ListBytesMonotone(codec, init, lo, hi - 1);
    }
  }
}
