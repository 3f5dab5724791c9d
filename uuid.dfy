/**
 * Finding a vehicle, sensor or command id inside an API URL: the leftmost
 * substring in the 8-4-4-4-12 lowercase hexadecimal form of section 4 of
 * RFC 9562, as the regular expression
 * `[0-9a-f]{8}-[0-9a-f]{4}-[0-9a-f]{4}-[0-9a-f]{4}-[0-9a-f]{12}` finds it.
 */
module Uuid {
  import opened Wrappers
  import opened Text

  const UuidLength: nat := 36

  predicate IsLowerHex(c: char)
  {
    ('0' <= c <= '9') || ('a' <= c <= 'f')
  }

  /** The hyphens sit after the 8th, 12th, 16th and 20th hex digit. */
  predicate IsHyphenPosition(k: int)
  {
    k == 8 || k == 13 || k == 18 || k == 23
  }

  predicate CharFits(k: int, c: char)
  {
    if IsHyphenPosition(k) then c == '-' else IsLowerHex(c)
  }

  /** `s` is exactly one id in the canonical lowercase form. */
  predicate IsUuid(s: string)
  {
    |s| == UuidLength && forall k :: 0 <= k < |s| ==> CharFits(k, s[k])
  }

  /** The pattern matches `s` at position `i`. */
  predicate IsUuidAt(s: string, i: int)
  {
    0 <= i && i + UuidLength <= |s| && IsUuid(s[i..i + UuidLength])
  }

  /** The leftmost match position at or after `from`. */
  function FindUuidFrom(s: string, from: nat): (r: Option<nat>)
    requires from <= |s|
    ensures r.Some? ==> from <= r.value && IsUuidAt(s, r.value)
    ensures r.Some? ==> forall j :: from <= j < r.value ==> !IsUuidAt(s, j)
    ensures r.None? ==> forall j :: from <= j ==> !IsUuidAt(s, j)
    decreases |s| - from
  {
    if from + UuidLength > |s| then None
    else if IsUuidAt(s, from) then Some(from)
    else FindUuidFrom(s, from + 1)
  }

  /** `extract_uuid_from_url`: the leftmost id in `url`, or None when there is
      none. */
  function ExtractUuid(url: string): (r: Option<string>)
    ensures r.None? <==> forall j :: !IsUuidAt(url, j)
    ensures r.Some? ==> IsUuid(r.value) && |r.value| == UuidLength && Contains(url, r.value)
  {
    match FindUuidFrom(url, 0)
    case None => None
    case Some(i) =>
      assert OccursAt(url, url[i..i + UuidLength], i);
      Some(url[i..i + UuidLength])
  }

  /** The id found is the one at the leftmost position where the pattern
      matches. */
  lemma ExtractUuidLeftmost(url: string, i: nat)
    requires IsUuidAt(url, i)
    requires forall j :: 0 <= j < i ==> !IsUuidAt(url, j)
    ensures ExtractUuid(url) == Some(url[i..i + UuidLength])
  {
  }

  /** A URL that is just an id plus surrounding path gives that id back. */
  lemma ExtractUuidOfPath(prefix: string, id: string, suffix: string)
    requires IsUuid(id)
    requires forall j :: 0 <= j < |prefix| ==> !IsUuidAt(prefix + id + suffix, j)
    ensures ExtractUuid(prefix + id + suffix) == Some(id)
  {
    var url := prefix + id + suffix;
    assert url[|prefix|..|prefix| + UuidLength] == id;
    ExtractUuidLeftmost(url, |prefix|);
  }
}
