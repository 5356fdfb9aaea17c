/**
 * What the error scan says about any JSON text: exactly which member decides, and when that is the one the
 * scan is meant to look at.
 */
module JsonScan {
  import opened Prelude
  import opened ErrorScan
  import opened Json

  // ---- The member that decides ----

  /** A name whose literal ends in the bytes of the key: `error`, or one that ends in an escaped quote and `error`. */
  predicate HidesKey(name: seq<u8>) {
    name == ERROR || (6 <= |name| && name[|name| - 6..] == [QUOTE] + ERROR)
  }

  /** The scan sees the key in this member: no whitespace may separate the name from its colon. */
  predicate Keyed(e: Entry) {
    e.Member? && e.gap == [] && HidesKey(e.name)
  }

  /** The first keyed member in the order of the text, at any depth. */
  function FirstKeyed(v: Value): (r: Option<Entry>)
    ensures r.Some? ==> Keyed(r.value)
    decreases v
  {
    if v.Arr? || v.Obj? then FirstAmong(v.entries) else None
  }

  function FirstAmong(es: seq<Entry>): (r: Option<Entry>)
    ensures r.Some? ==> Keyed(r.value)
    decreases es
  {
    if es == [] then None
    else
      var first := FirstIn(es[0]);
      if first.Some? then first else FirstAmong(es[1..])
  }

  function FirstIn(e: Entry): (r: Option<Entry>)
    ensures r.Some? ==> Keyed(r.value)
    decreases e
  {
    if Keyed(e) then Some(e) else FirstKeyed(e.value)
  }

  // ---- Tokens: where the key can occur ----

  /** What follows the colon of the first literal that ends in the key. */
  function AfterKey(ts: seq<Token>): Option<seq<Token>> {
    if ts == [] then None
    else if ts[0].Quoted? && HidesKey(ts[0].escaped) && 1 < |ts| && ts[1] == Mark(COLON) then Some(ts[2..])
    else AfterKey(ts[1..])
  }

  /** Literals are escaped, no quote stands outside of one, and no letter `e` directly behind one. */
  predicate Lexical(ts: seq<Token>) {
    ts == [] || (
      && Lexical(ts[1..])
      && match ts[0]
         case Mark(byte) => byte != QUOTE
         case Quoted(escaped) => Escaped(escaped) && (1 < |ts| ==> ts[1] != Mark(0x65)))
  }

  lemma InLiteral(e: seq<u8>, rest: seq<u8>, k: nat)
    requires k < |e|
    ensures ([QUOTE] + e + [QUOTE] + rest)[k + 1] == e[k]
  {
  }

  lemma {:induction false} KeyNotInside(e: seq<u8>, rest: seq<u8>, p: nat)
    requires Escaped(e) && p + 5 < |e|
    ensures !OccursAt([QUOTE] + e + [QUOTE] + rest, KEY, p)
  {
    var text := [QUOTE] + e + [QUOTE] + rest;
    if e[p + 5] == QUOTE {
      QuotesAreEscaped(e, p + 5);
    }
    InLiteral(e, rest, p + 4);
    InLiteral(e, rest, p + 5);
    assert p + 8 <= |text| ==> text[p..p + 8][6] == text[p + 6] && text[p..p + 8][5] == text[p + 5];
  }

  lemma KeyNotAcross(e: seq<u8>, rest: seq<u8>, p: nat)
    requires rest != [] ==> rest[0] != 0x65
    requires |e| < p + 5 && p < |e| + 2
    ensures !OccursAt([QUOTE] + e + [QUOTE] + rest, KEY, p)
  {
    var text, close := [QUOTE] + e + [QUOTE] + rest, |e| + 1;
    assert text[close] == QUOTE;
    assert rest != [] ==> text[close + 1] == rest[0];
    assert p + 8 <= |text| ==> text[p..p + 8][close - p] == text[close] && text[p..p + 8][1] == text[p + 1];
  }

  lemma KeyAtEnd(e: seq<u8>, rest: seq<u8>, p: nat)
    requires p + 5 == |e|
    ensures OccursAt([QUOTE] + e + [QUOTE] + rest, KEY, p) <==> HidesKey(e) && rest != [] && rest[0] == COLON
  {
    var a, b := [QUOTE] + e, [QUOTE] + rest;
    assert [QUOTE] + e + [QUOTE] + rest == a + b;
    assert KEY == ([QUOTE] + ERROR) + [QUOTE, COLON];
    if rest != [] {
      assert (a + b)[p..p + 8] == a[p..] + b[..2];
      assert b[..2] == [QUOTE, rest[0]];
      EqualHalves(a[p..], [QUOTE] + ERROR, b[..2], [QUOTE, COLON]);
      if p == 0 {
        assert a[1..] == e && ([QUOTE] + ERROR)[1..] == ERROR;
      } else {
        assert a[p..] == e[p - 1..];
        assert |e| != |ERROR|;
      }
    }
  }

  lemma EqualHalves(a: seq<u8>, a': seq<u8>, b: seq<u8>, b': seq<u8>)
    requires |a| == |a'|
    ensures a + b == a' + b' <==> a == a' && b == b'
  {
    assert (a + b)[..|a|] == a && (a + b)[|a|..] == b;
    assert (a' + b')[..|a'|] == a' && (a' + b')[|a'|..] == b';
  }

  /** In a literal followed by `rest`, the key can only start where the literal ends in it. */
  lemma {:induction false} KeyInLiteral(e: seq<u8>, rest: seq<u8>, p: nat)
    requires Escaped(e) && (rest != [] ==> rest[0] != 0x65) && p < |e| + 2
    ensures OccursAt([QUOTE] + e + [QUOTE] + rest, KEY, p)
      <==> HidesKey(e) && rest != [] && rest[0] == COLON && p + 5 == |e|
  {
    if p + 5 < |e| {
      KeyNotInside(e, rest, p);
    } else if p + 5 == |e| {
      KeyAtEnd(e, rest, p);
    } else {
      KeyNotAcross(e, rest, p);
    }
  }

  lemma OccursLater(head: seq<u8>, rest: seq<u8>, p: nat)
    requires |head| <= p
    ensures OccursAt(head + rest, KEY, p) <==> OccursAt(rest, KEY, p - |head|)
  {
    assert p + 8 <= |head + rest| ==> (head + rest)[p..p + 8] == rest[p - |head|..p - |head| + 8];
  }

  /** Bytes outside of literals never start the key. */
  lemma KeyNotAtMark(byte: u8, rest: seq<u8>)
    requires byte != QUOTE
    ensures !OccursAt([byte] + rest, KEY, 0)
  {
    var text := [byte] + rest;
    assert 8 <= |text| ==> text[0..8][0] == text[0];
  }

  /** The bytes before `rest` in a text that ends in it. */
  ghost predicate FollowsKey(text: seq<u8>, rest: seq<u8>) {
    var p := |text| - |rest| - 8;
    && 0 <= p && text[p + 8..] == rest
    && OccursAt(text, KEY, p)
    && forall i: nat :: i < p ==> !OccursAt(text, KEY, i)
  }

  ghost predicate NoKey(text: seq<u8>) {
    forall i: nat :: !OccursAt(text, KEY, i)
  }

  /** If the key does not start in `head`, its first occurrence is that of `rest`. */
  lemma SkipHead(head: seq<u8>, rest: seq<u8>)
    requires forall p: nat :: p < |head| ==> !OccursAt(head + rest, KEY, p)
    ensures NoKey(rest) ==> NoKey(head + rest)
    ensures forall tail :: FollowsKey(rest, tail) ==> FollowsKey(head + rest, tail)
  {
    forall p: nat | |head| <= p
      ensures OccursAt(head + rest, KEY, p) <==> OccursAt(rest, KEY, p - |head|)
    {
      OccursLater(head, rest, p);
    }
    forall tail | FollowsKey(rest, tail)
      ensures FollowsKey(head + rest, tail)
    {
      var p := |rest| - |tail| - 8;
      assert (head + rest)[|head| + p + 8..] == rest[p + 8..];
      OccursLater(head, rest, |head| + p);
    }
  }

  /** Searching the tokens is searching the bytes. */
  lemma {:induction false} TokensFindKey(ts: seq<Token>)
    requires Lexical(ts)
    ensures match AfterKey(ts)
      case None => NoKey(Bytes(ts))
      case Some(after) => FollowsKey(Bytes(ts), Bytes(after))
    decreases |ts|
  {
    if ts != [] {
      var head, rest := TokenBytes(ts[0]), Bytes(ts[1..]);
      TokensFindKey(ts[1..]);
      match ts[0]
      case Mark(byte) =>
        KeyNotAtMark(byte, rest);
        SkipHead(head, rest);
      case Quoted(escaped) =>
        LiteralFindsKey(ts);
    }
  }

  lemma {:induction false} LiteralFindsKey(ts: seq<Token>)
    requires Lexical(ts) && ts != [] && ts[0].Quoted?
    requires match AfterKey(ts[1..])
      case None => NoKey(Bytes(ts[1..]))
      case Some(after) => FollowsKey(Bytes(ts[1..]), Bytes(after))
    ensures match AfterKey(ts)
      case None => NoKey(Bytes(ts))
      case Some(after) => FollowsKey(Bytes(ts), Bytes(after))
  {
    var e, rest := ts[0].escaped, Bytes(ts[1..]);
    assert 1 < |ts| ==> rest != [] && rest[0] == if ts[1].Mark? then ts[1].byte else QUOTE;
    if HidesKey(e) && rest != [] && rest[0] == COLON {
      assert ts[1..][1..] == ts[2..];
      assert rest == [COLON] + Bytes(ts[2..]);
      LiteralHoldsKey(e, Bytes(ts[2..]));
    } else {
      LiteralHoldsNoKey(e, rest);
      SkipHead([QUOTE] + e + [QUOTE], rest);
    }
  }

  lemma {:induction false} LiteralHoldsNoKey(e: seq<u8>, rest: seq<u8>)
    requires Escaped(e) && (rest != [] ==> rest[0] != 0x65)
    requires !(HidesKey(e) && rest != [] && rest[0] == COLON)
    ensures forall p: nat :: p < |e| + 2 ==> !OccursAt([QUOTE] + e + [QUOTE] + rest, KEY, p)
  {
    forall p: nat | p < |e| + 2
      ensures !OccursAt([QUOTE] + e + [QUOTE] + rest, KEY, p)
    {
      KeyInLiteral(e, rest, p);
    }
  }

  lemma {:induction false} LiteralHoldsKey(e: seq<u8>, after: seq<u8>)
    requires Escaped(e) && HidesKey(e)
    ensures FollowsKey([QUOTE] + e + [QUOTE] + ([COLON] + after), after)
  {
    var rest := [COLON] + after;
    var text := [QUOTE] + e + [QUOTE] + rest;
    var p := |text| - |after| - 8;
    assert p + 5 == |e|;
    forall i: nat | i <= p
      ensures OccursAt(text, KEY, i) <==> i == p
    {
      KeyInLiteral(e, rest, i);
    }
    assert text[p + 8..] == after;
  }

  // ---- From the tree to the tokens ----

  /** May stand behind a value: whitespace, a comma or a closing bracket. */
  predicate Benign(rest: seq<Token>) {
    rest == [] || (rest[0].Mark? && rest[0].byte != COLON && rest[0].byte != 0x65)
  }

  /** The search in `ts` ends at `found`, and otherwise where the search in `rest` ends. */
  ghost predicate SearchEnds(ts: seq<Token>, found: Option<Entry>, rest: seq<Token>, tail: seq<Token>) {
    match found
    case None => AfterKey(ts) == AfterKey(rest)
    case Some(e) => Keyed(e) && LegalEntry(e) && AfterKey(ts) == Some(Marks(e.pad, Tokens(e.value, tail)))
  }

  lemma {:induction false} WalkMarks(bs: seq<u8>, rest: seq<Token>)
    requires Lexical(rest) && forall i :: 0 <= i < |bs| ==> bs[i] != QUOTE
    ensures Lexical(Marks(bs, rest)) && AfterKey(Marks(bs, rest)) == AfterKey(rest)
    decreases |bs|
  {
    if bs != [] {
      WalkMarks(bs[1..], rest);
      PushMark(bs[0], Marks(bs[1..], rest));
    }
  }

  lemma {:induction false} PushMark(byte: u8, rest: seq<Token>)
    requires Lexical(rest) && byte != QUOTE
    ensures Lexical([Mark(byte)] + rest) && AfterKey([Mark(byte)] + rest) == AfterKey(rest)
  {
    assert ([Mark(byte)] + rest)[1..] == rest;
  }

  lemma {:induction false} PushQuoted(e: seq<u8>, rest: seq<Token>)
    requires Lexical(rest) && Escaped(e) && (rest != [] ==> rest[0] != Mark(0x65))
    ensures Lexical([Quoted(e)] + rest)
    ensures AfterKey([Quoted(e)] + rest)
      == if HidesKey(e) && rest != [] && rest[0] == Mark(COLON) then Some(rest[1..]) else AfterKey(rest)
  {
    var ts := [Quoted(e)] + rest;
    assert ts[1..] == rest;
    assert rest != [] ==> ts[1] == rest[0] && ts[2..] == rest[1..];
  }

  lemma {:induction false} BlankThenBenign(ws: seq<u8>, rest: seq<Token>)
    requires Blank(ws) && Benign(rest)
    ensures Benign(Marks(ws, rest))
  {
  }

  lemma {:induction false} WalkValue(v: Value, rest: seq<Token>) returns (tail: seq<Token>)
    requires Legal(v) && Lexical(rest) && Benign(rest)
    ensures Lexical(Tokens(v, rest)) && SearchEnds(Tokens(v, rest), FirstKeyed(v), rest, tail)
    decreases v
  {
    tail := [];
    match v
    case Null => WalkMarks(NULL, rest);
    case True => WalkMarks(TRUE, rest);
    case False => WalkMarks(FALSE, rest);
    case Number(digits) => WalkMarks(digits, rest);
    case Text(escaped) => PushQuoted(escaped, rest);
    case Arr(inner, entries) =>
      tail := WalkBracket(OPEN_BRACKET, inner, entries, false, CLOSE_BRACKET, rest);
    case Obj(inner, entries) =>
      tail := WalkBracket(OPEN_BRACE, inner, entries, true, CLOSE_BRACE, rest);
  }

  lemma {:induction false} WalkBracket(open: u8, inner: seq<u8>, es: seq<Entry>, members: bool, close: u8,
                                       rest: seq<Token>)
    returns (tail: seq<Token>)
    requires open != QUOTE && close in [CLOSE_BRACKET, CLOSE_BRACE]
    requires Blank(inner) && LegalEntries(es, members) && Lexical(rest)
    ensures var ts := [Mark(open)] + Marks(inner, EntriesTokens(es, [Mark(close)] + rest));
      Lexical(ts) && SearchEnds(ts, FirstAmong(es), rest, tail)
    decreases es, 1
  {
    PushMark(close, rest);
    tail := WalkEntries(es, members, [Mark(close)] + rest);
    WalkMarks(inner, EntriesTokens(es, [Mark(close)] + rest));
    PushMark(open, Marks(inner, EntriesTokens(es, [Mark(close)] + rest)));
  }

  lemma {:induction false} WalkEntries(es: seq<Entry>, members: bool, rest: seq<Token>) returns (tail: seq<Token>)
    requires LegalEntries(es, members) && Lexical(rest) && Benign(rest)
    ensures Lexical(EntriesTokens(es, rest)) && SearchEnds(EntriesTokens(es, rest), FirstAmong(es), rest, tail)
    decreases es, 0
  {
    tail := [];
    if es != [] {
      var others := EntriesTokens(es[1..], rest);
      var otherTail := WalkEntries(es[1..], members, rest);
      PushMark(COMMA, others);
      tail := WalkEntry(es[0], if |es| == 1 then others else [Mark(COMMA)] + others);
      if FirstIn(es[0]).None? {
        tail := otherTail;
      }
    }
  }

  lemma {:induction false} WalkEntry(e: Entry, rest: seq<Token>) returns (tail: seq<Token>)
    requires LegalEntry(e) && Lexical(rest) && Benign(rest)
    ensures Lexical(EntryTokens(e, rest)) && SearchEnds(EntryTokens(e, rest), FirstIn(e), rest, tail)
    decreases e
  {
    var behind := Marks(e.trail, rest);
    WalkMarks(e.trail, rest);
    BlankThenBenign(e.trail, rest);
    tail := WalkValue(e.value, behind);
    if e.Item? {
      WalkMarks(e.lead, Tokens(e.value, behind));
    } else {
      var afterColon := Marks(e.pad, Tokens(e.value, behind));
      WalkMarks(e.pad, Tokens(e.value, behind));
      WalkName(e, afterColon);
      if Keyed(e) {
        tail := behind;
      }
    }
  }

  /** The name of a member, its colon, and what follows. */
  lemma {:induction false} WalkName(e: Entry, afterColon: seq<Token>)
    requires e.Member? && LegalEntry(e) && Lexical(afterColon)
    ensures var ts := Marks(e.lead, [Quoted(e.name)] + Marks(e.gap, [Mark(COLON)] + afterColon));
      Lexical(ts) && AfterKey(ts) == if Keyed(e) then Some(afterColon) else AfterKey(afterColon)
  {
    var colon := [Mark(COLON)] + afterColon;
    var ts := Marks(e.gap, colon);
    assert colon[1..] == afterColon;
    PushMark(COLON, afterColon);
    WalkMarks(e.gap, colon);
    assert ts[0] == if e.gap == [] then Mark(COLON) else Mark(e.gap[0]);
    PushQuoted(e.name, ts);
    WalkMarks(e.lead, [Quoted(e.name)] + ts);
  }

  // ---- What the scan says about a text ----

  lemma {:induction false} MarksBytes(bs: seq<u8>, rest: seq<Token>)
    ensures Bytes(Marks(bs, rest)) == bs + Bytes(rest)
    decreases |bs|
  {
    if bs != [] {
      MarksBytes(bs[1..], rest);
      var ts := Marks(bs, rest);
      assert ts[1..] == Marks(bs[1..], rest);
      assert bs == [bs[0]] + bs[1..];
    } else {
      assert bs + Bytes(rest) == Bytes(rest);
    }
  }

  /** How a value begins: never with whitespace, and with `null` only if it is `null`. */
  lemma {:induction false} ValueStart(v: Value, rest: seq<Token>)
    requires Legal(v)
    ensures var text := Bytes(Tokens(v, rest));
      text != [] && !IsWhitespace(text[0]) && (OccursAt(text, NULL, 0) <==> v.Null?)
  {
    match v
    case Null => BeginsWith(NULL, rest);
    case True => BeginsWith(TRUE, rest);
    case False => BeginsWith(FALSE, rest);
    case Number(digits) => BeginsWith(digits, rest);
    case _ =>
      var text := Bytes(Tokens(v, rest));
      assert 4 <= |text| ==> text[0..4][0] == text[0];
  }

  lemma {:induction false} BeginsWith(word: seq<u8>, rest: seq<Token>)
    requires word != []
    ensures var text := Bytes(Marks(word, rest));
      && text != [] && text[0] == word[0]
      && (word == NULL ==> OccursAt(text, NULL, 0)) && (word[0] != 0x6E ==> !OccursAt(text, NULL, 0))
  {
    MarksBytes(word, rest);
    var text := Bytes(Marks(word, rest));
    assert 4 <= |text| ==> text[0..4][0] == text[0];
    assert word == NULL ==> text[0..4] == NULL;
  }

  /** The scan's answer for a value with nothing keyed, or with a decisive member. */
  predicate Decided(found: Option<Entry>) {
    found.Some? && !found.value.value.Null?
  }

  /**
   * For every JSON text, however it is laid out and escaped: it is flagged if and only if its first keyed
   * member has a value other than `null`.
   */
  lemma {:induction false} FlaggedIff(d: Document)
    requires LegalDocument(d)
    ensures Flagged(Print(d)) <==> Decided(FirstKeyed(d.value))
  {
    var behind := Marks(d.trail, []);
    WalkMarks(d.trail, []);
    BlankThenBenign(d.trail, []);
    var tail := WalkValue(d.value, behind);
    var ts := Marks(d.lead, Tokens(d.value, behind));
    WalkMarks(d.lead, Tokens(d.value, behind));
    TokensFindKey(ts);
    match FirstKeyed(d.value)
    case None =>
      assert AfterKey(ts) == None by { WalkMarks(d.trail, []); }
      assert forall p: nat, q: nat :: !Located(Print(d), p, q);
    case Some(e) =>
      KeyedMemberDecides(Print(d), e, tail);
  }

  lemma {:induction false} KeyedMemberDecides(text: seq<u8>, e: Entry, tail: seq<Token>)
    requires Keyed(e) && LegalEntry(e)
    requires FollowsKey(text, Bytes(Marks(e.pad, Tokens(e.value, tail))))
    ensures Flagged(text) <==> !e.value.Null?
  {
    MarksBytes(e.pad, Tokens(e.value, tail));
    ValueStart(e.value, tail);
    KeyThenValue(text, e.pad, Bytes(Tokens(e.value, tail)));
  }

  lemma {:induction false} KeyThenValue(text: seq<u8>, pad: seq<u8>, value: seq<u8>)
    requires FollowsKey(text, pad + value) && Blank(pad)
    requires value != [] && !IsWhitespace(value[0])
    ensures Flagged(text) <==> !OccursAt(value, NULL, 0)
  {
    var after := |text| - |pad + value|;
    var q := after + |pad|;
    AfterPrefix(text, pad, value, after);
    assert forall i :: after <= i < q ==> text[i] == text[after..][i - after] == pad[i - after];
    LocatedDecides(text, after - 8, q);
    assert q + 4 <= |text| ==> text[q..q + 4] == value[..4];
  }

  lemma AfterPrefix(text: seq<u8>, pad: seq<u8>, value: seq<u8>, after: nat)
    requires after <= |text| && text[after..] == pad + value && value != []
    ensures after + |pad| < |text| && text[after + |pad|..] == value && text[after + |pad|] == value[0]
  {
    assert text[after..][|pad|..] == value;
  }

  // ---- Which answers the scan is meant to give, and when it gives them ----

  lemma {:induction false} FirstAmongSplits(es: seq<Entry>, k: nat)
    requires k < |es|
    ensures FirstAmong(es) ==
      if FirstAmong(es[..k]).Some? then FirstAmong(es[..k])
      else if FirstIn(es[k]).Some? then FirstIn(es[k])
      else FirstAmong(es[k + 1..])
    decreases |es|
  {
    if k > 0 {
      FirstAmongSplits(es[1..], k - 1);
      assert es[..k][1..] == es[1..][..k - 1];
    }
  }

  lemma {:induction false} LegalEntriesAt(es: seq<Entry>, members: bool, k: nat)
    requires LegalEntries(es, members) && k < |es|
    ensures LegalEntry(es[k]) && es[k].Member? == members
    decreases |es|
  {
    if k > 0 {
      LegalEntriesAt(es[1..], members, k - 1);
    }
  }

  lemma {:induction false} LegalEntriesUpdate(es: seq<Entry>, members: bool, k: nat, e: Entry)
    requires LegalEntries(es, members) && k < |es| && LegalEntry(e) && e.Member? == members
    ensures LegalEntries(es[k := e], members)
    decreases |es|
  {
    if k == 0 {
      assert es[0 := e][1..] == es[1..];
    } else {
      LegalEntriesUpdate(es[1..], members, k - 1, e);
      assert es[k := e][1..] == es[1..][k - 1 := e];
    }
  }

  /** A text that is an object, like every single JSON-RPC response; `BatchFlaggedIff` is about batches. */
  predicate IsResponse(d: Document) {
    LegalDocument(d) && d.value.Obj?
  }

  /** The same text with another value in its `k`-th member. */
  function WithValue(d: Document, k: nat, v: Value): Document
    requires d.value.Obj? && k < |d.value.entries|
  {
    d.(value := d.value.(entries := d.value.entries[k := d.value.entries[k].(value := v)]))
  }

  lemma {:induction false} WithValueLegal(d: Document, k: nat, v: Value)
    requires IsResponse(d) && k < |d.value.entries| && Legal(v)
    ensures IsResponse(WithValue(d, k, v))
  {
    LegalEntriesAt(d.value.entries, true, k);
    LegalEntriesUpdate(d.value.entries, true, k, d.value.entries[k].(value := v));
  }

  /** The scan says whether member `k` is present with a value other than `null`, whatever that value is. */
  ghost predicate ScanReports(d: Document, k: nat)
    requires d.value.Obj? && k < |d.value.entries|
  {
    forall v: Value :: Legal(v) ==> (Flagged(Print(WithValue(d, k, v))) <==> !v.Null?)
  }

  /** The answer as a function of the value of one top-level member. */
  lemma {:induction false} AnswerWith(d: Document, k: nat, v: Value)
    requires IsResponse(d) && k < |d.value.entries| && Legal(v)
    ensures var es := d.value.entries;
      Flagged(Print(WithValue(d, k, v))) <==> Decided(
        if FirstAmong(es[..k]).Some? then FirstAmong(es[..k])
        else if FirstIn(es[k].(value := v)).Some? then FirstIn(es[k].(value := v))
        else FirstAmong(es[k + 1..]))
  {
    var es := d.value.entries;
    var changed := es[k := es[k].(value := v)];
    WithValueLegal(d, k, v);
    FlaggedIff(WithValue(d, k, v));
    FirstAmongSplits(changed, k);
    assert changed[..k] == es[..k] && changed[k + 1..] == es[k + 1..];
  }

  /**
   * The scan reports a top-level member if and only if its literal ends in the key with the colon right
   * behind it and no keyed member, at any depth, comes before it.
   */
  lemma {:induction false} ScanReportsIff(d: Document, k: nat)
    requires IsResponse(d) && k < |d.value.entries|
    ensures ScanReports(d, k) <==> Keyed(d.value.entries[k]) && FirstAmong(d.value.entries[..k]).None?
  {
    LegalEntriesAt(d.value.entries, true, k);
    if Keyed(d.value.entries[k]) && FirstAmong(d.value.entries[..k]).None? {
      forall v: Value | Legal(v)
        ensures Flagged(Print(WithValue(d, k, v))) <==> !v.Null?
      {
        AnswerWith(d, k, v);
      }
    } else {
      AnswerWith(d, k, Null);
      AnswerWith(d, k, True);
      assert Legal(Null) && Legal(True);
    }
  }

  /**
   * The member the scan is meant for: one whose decoded name is `error` is reported if and only if that name is
   * spelled without escapes, no whitespace precedes its colon, and nothing keyed precedes it.
   */
  lemma {:induction false} ErrorReportedIff(d: Document, k: nat)
    requires IsResponse(d) && k < |d.value.entries| && d.value.entries[k].Member?
    requires var name := d.value.entries[k].name; Escaped(name) && Decoded(name) == ERROR
    ensures var e := d.value.entries[k];
      ScanReports(d, k) <==> e.name == ERROR && e.gap == [] && FirstAmong(d.value.entries[..k]).None?
  {
    var name := d.value.entries[k].name;
    ScanReportsIff(d, k);
    if name != ERROR && HidesKey(name) {
      assert name[|name| - 6..][0] == QUOTE;
      QuoteSurvivesDecoding(name, |name| - 6);
    }
  }

  /** A response in which only the `k`-th member can hold a keyed member is judged by what is inside that one. */
  lemma {:induction false} ResultDecidesIff(d: Document, k: nat)
    requires IsResponse(d) && k < |d.value.entries| && !Keyed(d.value.entries[k])
    requires FirstAmong(d.value.entries[..k]).None? && FirstAmong(d.value.entries[k + 1..]).None?
    ensures Flagged(Print(d)) <==> Decided(FirstKeyed(d.value.entries[k].value))
  {
    FlaggedIff(d);
    FirstAmongSplits(d.value.entries, k);
  }

  /** In particular a success response is never flagged for the contents of its string result. */
  lemma {:induction false} StringResultNeverFlagged(d: Document, k: nat, result: seq<u8>)
    requires IsResponse(d) && k < |d.value.entries| && !Keyed(d.value.entries[k])
    requires FirstAmong(d.value.entries[..k]).None? && FirstAmong(d.value.entries[k + 1..]).None?
    ensures Legal(Text(Escape(result))) && !Flagged(Print(WithValue(d, k, Text(Escape(result)))))
  {
    DecodeEscape(result);
    var other := WithValue(d, k, Text(Escape(result)));
    WithValueLegal(d, k, Text(Escape(result)));
    assert other.value.entries[..k] == d.value.entries[..k];
    assert other.value.entries[k + 1..] == d.value.entries[k + 1..];
    ResultDecidesIff(other, k);
  }

  // ---- Batches ----

  /** Nothing keyed in the first `k` items of a batch. */
  ghost predicate NothingBefore(es: seq<Entry>, k: nat)
    requires k <= |es|
  {
    forall i :: 0 <= i < k ==> FirstKeyed(es[i].value).None?
  }

  lemma {:induction false} NothingAmong(es: seq<Entry>, k: nat)
    requires LegalEntries(es, false) && k <= |es|
    ensures FirstAmong(es[..k]).None? <==> NothingBefore(es, k)
    decreases k
  {
    if k > 0 {
      NothingAmong(es, k - 1);
      LegalEntriesAt(es, false, k - 1);
      FirstAmongSplits(es[..k], k - 1);
      assert es[..k][..k - 1] == es[..k - 1] && es[..k][k..] == [];
    }
  }

  /** A batch is flagged if and only if the first of its items with something keyed inside is flagged for it. */
  lemma {:induction false} BatchFlaggedIff(d: Document)
    requires LegalDocument(d) && d.value.Arr?
    ensures var es := d.value.entries;
      Flagged(Print(d))
      <==> exists k :: 0 <= k < |es| && NothingBefore(es, k) && Decided(FirstKeyed(es[k].value))
  {
    var es := d.value.entries;
    FlaggedIff(d);
    forall k | 0 <= k < |es| && NothingBefore(es, k) && FirstKeyed(es[k].value).Some?
      ensures FirstAmong(es) == FirstKeyed(es[k].value)
    {
      NothingAmong(es, k);
      LegalEntriesAt(es, false, k);
      FirstAmongSplits(es, k);
    }
    if FirstAmong(es).Some? {
      assert es[..|es|] == es;
      var k := FirstItem(es, |es|);
    }
  }

  lemma {:induction false} FirstItem(es: seq<Entry>, n: nat) returns (k: nat)
    requires LegalEntries(es, false) && n <= |es| && FirstAmong(es[..n]).Some?
    ensures k < n && NothingBefore(es, k) && FirstKeyed(es[k].value).Some?
    decreases n
  {
    if FirstAmong(es[..n - 1]).Some? {
      k := FirstItem(es, n - 1);
    } else {
      k := n - 1;
      NothingAmong(es, k);
      LegalEntriesAt(es, false, k);
      FirstAmongSplits(es[..n], k);
      assert es[..n][..k] == es[..k] && es[..n][n..] == [];
    }
  }

  /** So a `null` behind the first key of a batch hides every error in the items after it. */
  lemma {:induction false} NullHidesLaterErrors(d: Document, k: nat)
    requires LegalDocument(d) && d.value.Arr? && k < |d.value.entries| && NothingBefore(d.value.entries, k)
    requires var first := FirstKeyed(d.value.entries[k].value); first.Some? && first.value.value.Null?
    ensures !Flagged(Print(d))
  {
    BatchFlaggedIff(d);
  }

  // ---- Instances ----

  function Plain(name: seq<u8>, value: Value): Entry {
    Member([], name, [], [], value, [])
  }

  function Compact(e: Entry): Document {
    Document([], Obj([], [e]), [])
  }

  lemma {:induction false} OneMember(e: Entry)
    requires LegalEntry(e) && e.Member?
    ensures LegalDocument(Compact(e)) && FirstKeyed(Compact(e).value) == FirstIn(e)
    ensures Flagged(Print(Compact(e))) <==> Decided(FirstIn(e))
  {
    assert [e][1..] == [];
    assert FirstAmong([e]) == FirstIn(e);
    assert LegalEntries([e], true);
    FlaggedIff(Compact(e));
  }

  const ONE: Value := Number([0x31])
  /** The name `a"error`, escaped. */
  const QUOTED_NAME: seq<u8> := [0x61, BACKSLASH, QUOTE] + ERROR

  /** An `error` key inside a result: `{"r":{"error":1}}`. */
  lemma {:induction false} NestedErrorIsFlagged()
    ensures Flagged(Print(Compact(Plain([0x72], Compact(Plain(ERROR, ONE)).value))))
  {
    PlainNameIsEscaped(ERROR);
    PlainNameIsEscaped([0x72]);
    OneMember(Plain(ERROR, ONE));
    OneMember(Plain([0x72], Compact(Plain(ERROR, ONE)).value));
  }

  /** A space before the colon: `{"error" :1}`. */
  lemma {:induction false} SpacedColonIsMissed()
    ensures !Flagged(Print(Compact(Member([], ERROR, [0x20], [], ONE, []))))
  {
    PlainNameIsEscaped(ERROR);
    OneMember(Member([], ERROR, [0x20], [], ONE, []));
  }

  /** A name that is not `error` but ends in a quote and `error`. */
  lemma {:induction false} QuotedNameIsFlagged()
    ensures Flagged(Print(Compact(Plain(QUOTED_NAME, ONE))))
  {
    assert QUOTED_NAME[1..] == [BACKSLASH, QUOTE] + ERROR && QUOTED_NAME[1..][2..] == ERROR;
    PlainNameIsEscaped(ERROR);
    assert QUOTED_NAME[|QUOTED_NAME| - 6..] == [QUOTE] + ERROR;
    OneMember(Plain(QUOTED_NAME, ONE));
  }

  /** A name that decodes to `error` but is spelled with an escape. */
  const ESCAPED_ERROR: seq<u8> := [BACKSLASH, 0x75, 0x30, 0x30, 0x36, 0x35] + ERROR[1..]

  lemma {:induction false} EscapedSpellingIsMissed()
    ensures Escaped(ESCAPED_ERROR) && Decoded(ESCAPED_ERROR) == ERROR
    ensures !Flagged(Print(Compact(Plain(ESCAPED_ERROR, ONE))))
  {
    assert ESCAPED_ERROR[6..] == ERROR[1..];
    PlainNameIsEscaped(ERROR[1..]);
    PlainNameDecodes(ERROR[1..]);
    assert ERROR == [0x65] + ERROR[1..];
    assert ESCAPED_ERROR[|ESCAPED_ERROR| - 6..][0] == 0x36;
    OneMember(Plain(ESCAPED_ERROR, ONE));
  }

  lemma {:induction false} PlainNameDecodes(name: seq<u8>)
    requires forall i :: 0 <= i < |name| ==> 0x20 <= name[i] && name[i] != QUOTE && name[i] != BACKSLASH
    ensures Escaped(name) && Decoded(name) == name
    decreases |name|
  {
    PlainNameIsEscaped(name);
    if name != [] {
      PlainNameDecodes(name[1..]);
      assert name == [name[0]] + name[1..];
    }
  }

  lemma {:induction false} PlainNameIsEscaped(name: seq<u8>)
    requires forall i :: 0 <= i < |name| ==> 0x20 <= name[i] && name[i] != QUOTE && name[i] != BACKSLASH
    ensures Escaped(name)
    decreases |name|
  {
    if name != [] {
      PlainNameIsEscaped(name[1..]);
    }
  }
}
