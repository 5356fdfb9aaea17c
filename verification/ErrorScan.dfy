/** `response_has_error` of `src/forwarder.rs`, as a statement about bytes. */
module ErrorScan {
  import opened Prelude

  type u8 = x: int | 0 <= x < 256

  const QUOTE: u8 := 0x22
  const COLON: u8 := 0x3A
  /** The five letters of `error`. */
  const ERROR: seq<u8> := [0x65, 0x72, 0x72, 0x6F, 0x72]
  /** `"error":` */
  const KEY: seq<u8> := [0x22, 0x65, 0x72, 0x72, 0x6F, 0x72, 0x22, 0x3A]
  const NULL: seq<u8> := [0x6E, 0x75, 0x6C, 0x6C]

  /** `char::is_whitespace` on a byte read as a character below 256. */
  predicate IsWhitespace(b: u8) {
    0x09 <= b <= 0x0D || b == 0x20 || b == 0x85 || b == 0xA0
  }

  predicate OccursAt(text: seq<u8>, word: seq<u8>, p: nat) {
    p + |word| <= |text| && text[p..p + |word|] == word
  }

  /** `p` is the first occurrence of the key and `q` the first byte after it that is not whitespace. */
  ghost predicate Located(text: seq<u8>, p: nat, q: nat) {
    && OccursAt(text, KEY, p)
    && (forall i: nat :: i < p ==> !OccursAt(text, KEY, i))
    && p + |KEY| <= q <= |text|
    && (forall i :: p + |KEY| <= i < q ==> IsWhitespace(text[i]))
    && (q < |text| ==> !IsWhitespace(text[q]))
  }

  /** What the scan computes: the key occurs, and what follows its first occurrence is not `null`. */
  ghost predicate Flagged(text: seq<u8>) {
    exists p: nat, q: nat :: Located(text, p, q) && !OccursAt(text, NULL, q)
  }

  lemma LocatedUnique(text: seq<u8>, p: nat, q: nat, p': nat, q': nat)
    requires Located(text, p, q) && Located(text, p', q')
    ensures p == p' && q == q'
  {
  }

  /** The position of the first window equal to the key. */
  method FindKey(text: seq<u8>) returns (start: Option<nat>)
    ensures start.Some? ==>
      OccursAt(text, KEY, start.value) && forall i: nat :: i < start.value ==> !OccursAt(text, KEY, i)
    ensures start.None? ==> forall i: nat :: !OccursAt(text, KEY, i)
  {
    var p := 0;
    while p + |KEY| <= |text|
      invariant forall i: nat :: i < p ==> !OccursAt(text, KEY, i)
    {
      if text[p..p + |KEY|] == KEY {
        return Some(p);
      }
      p := p + 1;
    }
    start := None;
  }

  /** The loop of the source: no index is ever out of bounds. */
  method ResponseHasError(text: seq<u8>) returns (flagged: bool)
    ensures flagged <==> Flagged(text)
  {
    var start := FindKey(text);
    if start.None? {
      return false;
    }
    var idx := start.value + |KEY|;
    while idx < |text| && IsWhitespace(text[idx])
      invariant start.value + |KEY| <= idx <= |text|
      invariant forall i :: start.value + |KEY| <= i < idx ==> IsWhitespace(text[i])
    {
      idx := idx + 1;
    }
    assert Located(text, start.value, idx);
    if idx + |NULL| <= |text| && text[idx..idx + |NULL|] == NULL {
      forall p: nat, q: nat | Located(text, p, q)
        ensures OccursAt(text, NULL, q)
      {
        LocatedUnique(text, p, q, start.value, idx);
      }
      return false;
    }
    return true;
  }

  /** Exactly the whitespace of the first 256 characters is skipped before a `null`. */
  lemma WhitespaceSkippedIff(b: u8)
    ensures !Flagged(KEY + [b] + NULL) <==> b in {0x09, 0x0A, 0x0B, 0x0C, 0x0D, 0x20, 0x85, 0xA0}
  {
    var text := KEY + [b] + NULL;
    assert text[0..8] == KEY;
    var q := if IsWhitespace(b) then 9 else 8;
    assert text[9..13] == NULL;
    assert text[8] == b;
    assert Located(text, 0, q);
    LocatedDecides(text, 0, q);
    assert text[8..12] != NULL by {
      assert text[8..12][1] == NULL[0] && NULL[0] != NULL[1];
    }
  }

  /** Once the key is located, only the text behind it counts. */
  lemma LocatedDecides(text: seq<u8>, p: nat, q: nat)
    requires Located(text, p, q)
    ensures Flagged(text) <==> !OccursAt(text, NULL, q)
  {
    forall p': nat, q': nat | Located(text, p', q')
      ensures q' == q
    {
      LocatedUnique(text, p, q, p', q');
    }
  }
}
