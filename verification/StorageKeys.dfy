/**
 Object keys as byte strings: how they are formatted, recognised and parsed, and that a key is
 read back as what it is and as nothing else.
 */
module StorageKeys {
  import opened Domain

  // ----- Decimal numbers -----

  predicate IsDigit(c: char) {
    '0' <= c <= '9'
  }

  function DigitChar(d: nat): char
    requires d < 10
  {
    '0' + d as char
  }

  function Decimal(n: nat): (s: string)
    ensures s != "" && forall i :: 0 <= i < |s| ==> IsDigit(s[i])
  {
    if n < 10 then [DigitChar(n)] else Decimal(n / 10) + [DigitChar(n % 10)]
  }

  /** `%0wd` for a number that is not negative: at least `w` characters. */
  function Padded(n: nat, w: nat): string {
    Zeros(w - |Decimal(n)|) + Decimal(n)
  }

  function Zeros(k: int): (s: string)
    ensures |s| == if k > 0 then k else 0
    ensures forall i :: 0 <= i < |s| ==> s[i] == '0'
  {
    if k <= 0 then "" else Zeros(k - 1) + "0"
  }

  predicate AllDigits(s: string) {
    forall i :: 0 <= i < |s| ==> IsDigit(s[i])
  }

  function Value(s: string): nat
    requires AllDigits(s)
  {
    if s == "" then 0 else Value(s[..|s| - 1]) * 10 + (s[|s| - 1] - '0') as nat
  }

  /** A decimal number with an optional sign; None is a syntax error. */
  function Atoi(s: string): Option<int> {
    if s != "" && (s[0] == '+' || s[0] == '-') then
      if |s| > 1 && AllDigits(s[1..]) then
        var v: int := Value(s[1..]);
        Some(if s[0] == '-' then -v else v)
      else None
    else if s != "" && AllDigits(s) then Some(Value(s)) else None
  }

  /** Digits are read as their value, with a sign or without; nothing else is read. */
  lemma AtoiReads(s: string, digits: string)
    ensures digits != "" && AllDigits(digits) ==>
      var v: int := Value(digits);
      Atoi(digits) == Some(v) && Atoi("+" + digits) == Some(v) && Atoi("-" + digits) == Some(-v)
    ensures Atoi(s).Some? ==>
      s != "" && (AllDigits(s) || (|s| > 1 && AllDigits(s[1..]) && (s[0] == '+' || s[0] == '-')))
  {
    assert ("+" + digits)[1..] == digits && ("-" + digits)[1..] == digits;
  }

  lemma {:induction false} ValueOfDecimal(n: nat)
    ensures Value(Decimal(n)) == n
  {
    if n >= 10 {
      ValueOfDecimal(n / 10);
      var s := Decimal(n);
      assert s[..|s| - 1] == Decimal(n / 10);
    } else {
      assert [DigitChar(n)][..0] == "";
    }
  }

  lemma {:induction false} ZerosAddNothing(k: int, s: string)
    requires AllDigits(s)
    ensures Value(Zeros(k) + s) == Value(s)
    decreases |s|, k
  {
    if s != "" {
      assert (Zeros(k) + s)[..|Zeros(k) + s| - 1] == Zeros(k) + s[..|s| - 1];
      ZerosAddNothing(k, s[..|s| - 1]);
    } else if k > 0 {
      assert Zeros(k) + "" == Zeros(k - 1) + "0";
      assert (Zeros(k - 1) + "0")[..|Zeros(k - 1) + "0"| - 1] == Zeros(k - 1) + "";
      ZerosAddNothing(k - 1, "");
    }
  }

  lemma AtoiOfDigits(s: string)
    requires s != "" && AllDigits(s)
    ensures Atoi(s) == Some(Value(s))
  {
    assert IsDigit(s[0]);
  }

  lemma ValueOfPadded(n: nat, w: nat)
    ensures AllDigits(Padded(n, w)) && Value(Padded(n, w)) == n
  {
    ZerosAddNothing(w - |Decimal(n)|, Decimal(n));
    ValueOfDecimal(n);
  }

  /** Padding is undone by parsing, also for numbers wider than the padding. */
  lemma AtoiInvertsPadding(n: nat, w: nat)
    ensures Atoi(Padded(n, w)) == Some(n)
  {
    AtoiOfDigits(Padded(n, w));
    ValueOfPadded(n, w);
  }

  lemma PaddingIsInjective(m: nat, n: nat, w: nat)
    ensures Padded(m, w) == Padded(n, w) ==> m == n
  {
    AtoiInvertsPadding(m, w);
    AtoiInvertsPadding(n, w);
  }

  // ----- Prefixes, suffixes and splitting -----

  predicate HasPrefix(s: string, p: string) {
    p <= s
  }

  predicate HasSuffix(s: string, x: string) {
    |x| <= |s| && s[|s| - |x|..] == x
  }

  /** A prefix and a suffix are what they are called, also if nothing is left beside them. */
  lemma PrefixesAre(s: string, p: string, t: string)
    ensures HasPrefix(p + t, p) && TrimPrefix(p + t, p) == t
    ensures HasSuffix(t + p, p) && TrimSuffix(t + p, p) == t
    ensures HasPrefix(s, p) ==> s == p + TrimPrefix(s, p)
    ensures HasSuffix(s, p) ==> s == TrimSuffix(s, p) + p
    ensures !HasPrefix(s, p) ==> TrimPrefix(s, p) == s
    ensures !HasSuffix(s, p) ==> TrimSuffix(s, p) == s
  {
    assert (p + t)[|p|..] == t && (t + p)[|t|..] == p && (t + p)[..|t|] == t;
  }

  function TrimPrefix(s: string, p: string): string {
    if HasPrefix(s, p) then s[|p|..] else s
  }

  function TrimSuffix(s: string, x: string): string {
    if HasSuffix(s, x) then s[..|s| - |x|] else s
  }

  /** The parts between slashes; never empty. */
  function SplitPath(s: string): (parts: seq<string>)
    ensures parts != []
  {
    if s == "" then [""]
    else
      var rest := SplitPath(s[1..]);
      if s[0] == '/' then [""] + rest else [[s[0]] + rest[0]] + rest[1..]
  }

  predicate NoSlash(s: string) {
    forall i :: 0 <= i < |s| ==> s[i] != '/'
  }

  lemma {:induction false} SplitAtSlash(a: string, b: string)
    requires NoSlash(a)
    ensures SplitPath(a + "/" + b) == [a] + SplitPath(b)
  {
    var s := a + "/" + b;
    if a == "" {
      assert s[1..] == b;
    } else {
      assert s[1..] == a[1..] + "/" + b;
      SplitAtSlash(a[1..], b);
      assert [a[0]] + a[1..] == a;
    }
  }

  lemma {:induction false} SplitNone(a: string)
    requires NoSlash(a)
    ensures SplitPath(a) == [a]
  {
    if a != "" {
      SplitNone(a[1..]);
      assert [a[0]] + a[1..] == a;
    }
  }

  lemma {:induction false} LastPart(a: string, b: string)
    requires NoSlash(b)
    ensures var parts := SplitPath(a + "/" + b); parts[|parts| - 1] == b && |parts| >= 2
    ensures NoSlash(a) ==> |SplitPath(a + "/" + b)| == 2
  {
    var s := a + "/" + b;
    if a == "" {
      assert s[1..] == b;
      SplitNone(b);
    } else {
      assert s[1..] == a[1..] + "/" + b;
      LastPart(a[1..], b);
    }
  }

  // ----- Keys -----

  const ORIGINAL := "original.mp4"
  const THUMBNAIL := "thumbnail.jpg"

  function NewStorageKey(id: string): string {
    "videos/" + id + "/" + ORIGINAL
  }

  function NewFrameStorageKey(id: string, segment: nat, index: nat): string {
    "frames/" + id + "/" + Padded(segment, 2) + "_" + Padded(index, 4) + ".jpg"
  }

  function SegmentFileName(segment: nat): string {
    "segment_" + Padded(segment, 2) + ".mp4"
  }

  function NewSegmentStorageKey(id: string, segment: nat): string {
    "videos/" + id + "/segments/" + SegmentFileName(segment)
  }

  function NewThumbnailStorageKey(id: string): string {
    "videos/" + id + "/" + THUMBNAIL
  }

  predicate IsFrameObjectKey(key: string) {
    HasPrefix(TrimPrefix(key, "/"), "frames/")
  }

  predicate IsThumbnailObjectKey(key: string) {
    var k := TrimPrefix(key, "/");
    HasPrefix(k, "videos/") && HasSuffix(k, "/" + THUMBNAIL)
  }

  function ParseSegmentIndex(name: string): Option<int> {
    Atoi(TrimSuffix(TrimPrefix(name, "segment_"), ".mp4"))
  }

  /** The index of a segment is read back from its file name. */
  lemma ParseInvertsSegmentName(segment: nat)
    ensures ParseSegmentIndex(SegmentFileName(segment)) == Some(segment)
  {
    var name, number := SegmentFileName(segment), Padded(segment, 2);
    assert name == "segment_" + (number + ".mp4");
    assert TrimPrefix(name, "segment_") == number + ".mp4";
    assert (number + ".mp4")[|number + ".mp4"| - 4..] == ".mp4";
    assert TrimSuffix(number + ".mp4", ".mp4") == number;
    AtoiInvertsPadding(segment, 2);
  }

  // ----- Decoding -----

  predicate IsHex(c: char) {
    '0' <= c <= '9' || 'a' <= c <= 'f' || 'A' <= c <= 'F'
  }

  function HexValue(c: char): int
    requires IsHex(c)
  {
    if c <= '9' then (c - '0') as int else if c <= 'F' then (c - 'A') as int + 10 else (c - 'a') as int + 10
  }

  function Byte(hi: char, lo: char): char
    requires IsHex(hi) && IsHex(lo)
  {
    (HexValue(hi) * 16 + HexValue(lo)) as char
  }

  function Prepend(c: char, s: Option<string>): Option<string> {
    if s.None? then None else Some([c] + s.value)
  }

  /** URL query decoding; None is an invalid escape. */
  function Unescape(s: string): Option<string> {
    if s == "" then Some("")
    else if s[0] == '%' then
      if |s| >= 3 && IsHex(s[1]) && IsHex(s[2]) then Prepend(Byte(s[1], s[2]), Unescape(s[3..])) else None
    else Prepend(if s[0] == '+' then ' ' else s[0], Unescape(s[1..]))
  }

  /**
   The id in a decoded key without its leading slash.  A video id is known by its text, and `parse`
   is the inverse the id library provides.
   */
  function IdOfKey<Id>(key: string, parse: string -> Option<Id>): Option<Id> {
    var parts := SplitPath(key);
    if |parts| != 3 || parts[0] != "videos" || parts[2] != ORIGINAL then None else parse(parts[1])
  }

  function VideoIdFromStorageKey<Id>(encoded: string, parse: string -> Option<Id>): Option<Id> {
    var key := Unescape(encoded);
    if key.None? then None else IdOfKey(TrimPrefix(key.value, "/"), parse)
  }

  predicate Plain(s: string) {
    forall i :: 0 <= i < |s| ==> s[i] != '%' && s[i] != '+'
  }

  lemma {:induction false} UnescapePrefix(p: string, s: string)
    requires Plain(p)
    ensures Unescape(p + s) == if Unescape(s).None? then None else Some(p + Unescape(s).value)
  {
    if p == "" {
      assert p + s == s;
      assert Unescape(s).Some? ==> p + Unescape(s).value == Unescape(s).value;
    } else {
      assert (p + s)[1..] == p[1..] + s;
      UnescapePrefix(p[1..], s);
      assert Unescape(s).Some? ==> [p[0]] + (p[1..] + Unescape(s).value) == p + Unescape(s).value;
    }
  }

  lemma UnescapePlain(s: string)
    requires Plain(s)
    ensures Unescape(s) == Some(s)
  {
    UnescapePrefix(s, "");
    assert s + "" == s;
  }

  lemma ConsSuffix(c: char, x: string, b: string)
    ensures [c] + (x + b) == ([c] + x) + b
  {
  }

  /** A plain suffix survives decoding, whatever stands before it. */
  lemma {:induction false} UnescapeSuffix(a: string, b: string) returns (x: string)
    requires Plain(b) && b != "" && !IsHex(b[0]) && Unescape(a + b).Some?
    ensures Unescape(a + b) == Some(x + b)
    decreases |a|
  {
    var s := a + b;
    if a == "" {
      assert s == b;
      UnescapePlain(b);
      x := "";
    } else if a[0] == '%' {
      assert |a| >= 3;
      assert s[3..] == a[3..] + b;
      var y := UnescapeSuffix(a[3..], b);
      ConsSuffix(Byte(s[1], s[2]), y, b);
      x := [Byte(s[1], s[2])] + y;
    } else {
      assert s[1..] == a[1..] + b;
      var y := UnescapeSuffix(a[1..], b);
      var c := if s[0] == '+' then ' ' else s[0];
      ConsSuffix(c, y, b);
      x := [c] + y;
    }
  }

  // ----- What the keys promise -----

  /** The text of an id: hexadecimal digits and hyphens. */
  predicate IsIdText(s: string) {
    forall i :: 0 <= i < |s| ==> IsHex(s[i]) || s[i] == '-'
  }

  lemma SplitThree(a: string, b: string, c: string)
    requires NoSlash(a) && NoSlash(b) && NoSlash(c)
    ensures SplitPath(a + "/" + b + "/" + c) == [a, b, c]
  {
    assert a + "/" + b + "/" + c == a + "/" + (b + "/" + c);
    SplitAtSlash(a, b + "/" + c);
    SplitAtSlash(b, c);
    SplitNone(c);
  }

  function JoinPath(parts: seq<string>): string
    requires parts != []
  {
    if |parts| == 1 then parts[0] else parts[0] + "/" + JoinPath(parts[1..])
  }

  lemma {:induction false} JoinInvertsSplit(s: string)
    ensures JoinPath(SplitPath(s)) == s
  {
    if s != "" {
      var rest := SplitPath(s[1..]);
      JoinInvertsSplit(s[1..]);
      assert [s[0]] + s[1..] == s;
      if s[0] == '/' {
        assert ([""] + rest)[1..] == rest;
      } else {
        assert ([[s[0]] + rest[0]] + rest[1..])[1..] == rest[1..];
      }
    }
  }

  lemma JoinThree(parts: seq<string>)
    requires |parts| == 3
    ensures JoinPath(parts) == parts[0] + "/" + parts[1] + "/" + parts[2]
  {
    var rest := parts[1..];
    assert JoinPath(rest[1..]) == parts[2];
    assert JoinPath(rest) == parts[1] + "/" + parts[2];
    assert parts[0] + "/" + (parts[1] + "/" + parts[2]) == parts[0] + "/" + parts[1] + "/" + parts[2];
  }

  /** An id is found exactly in the key of a video, in the place of its id. */
  lemma IdOfKeyIff<Id>(key: string, parse: string -> Option<Id>, id: Id)
    ensures IdOfKey(key, parse) == Some(id) <==>
      exists text :: NoSlash(text) && parse(text) == Some(id) && key == NewStorageKey(text)
  {
    if IdOfKey(key, parse) == Some(id) {
      var parts := SplitPath(key);
      PartsHaveNoSlash(key);
      JoinInvertsSplit(key);
      JoinThree(parts);
      assert NoSlash(parts[1]) && key == NewStorageKey(parts[1]);
    }
    forall text | NoSlash(text) && parse(text) == Some(id) && key == NewStorageKey(text)
      ensures IdOfKey(key, parse) == Some(id)
    {
      StorageKeyParts(text);
    }
  }

  lemma StorageKeyParts(text: string)
    requires NoSlash(text)
    ensures SplitPath(NewStorageKey(text)) == ["videos", text, ORIGINAL]
  {
    assert NewStorageKey(text) == "videos" + "/" + text + "/" + ORIGINAL;
    SplitThree("videos", text, ORIGINAL);
  }

  lemma {:induction false} PartsHaveNoSlash(s: string)
    ensures forall i :: 0 <= i < |SplitPath(s)| ==> NoSlash(SplitPath(s)[i])
  {
    if s != "" {
      PartsHaveNoSlash(s[1..]);
    }
  }

  lemma StorageKeyIsPlain(text: string)
    requires IsIdText(text)
    ensures Plain(NewStorageKey(text)) && Plain("/" + NewStorageKey(text))
  {
  }

  /** One leading slash is taken off, and nothing from a key without one. */
  lemma LeadingSlash(key: string)
    requires key != "" && key[0] != '/'
    ensures TrimPrefix(key, "/") == key && TrimPrefix("/" + key, "/") == key
  {
    assert ("/" + key)[1..] == key;
  }

  lemma StorageKeyStarts(text: string)
    ensures NewStorageKey(text) != "" && NewStorageKey(text)[0] == 'v'
  {
    assert NewStorageKey(text) == "videos/" + (text + "/" + ORIGINAL);
  }

  /** Round trip: the id is read back from the key of its video, with or without a leading slash. */
  lemma StorageKeyRoundTrip<Id>(text: string, parse: string -> Option<Id>, id: Id)
    requires IsIdText(text) && parse(text) == Some(id)
    ensures VideoIdFromStorageKey(NewStorageKey(text), parse) == Some(id)
    ensures VideoIdFromStorageKey("/" + NewStorageKey(text), parse) == Some(id)
  {
    var key := NewStorageKey(text);
    StorageKeyIsPlain(text);
    UnescapePlain(key);
    UnescapePlain("/" + key);
    StorageKeyStarts(text);
    LeadingSlash(key);
    StorageKeyParts(text);
    assert IdOfKey(key, parse) == parse(text);
  }

  /** No frame key is taken for a video. */
  lemma FrameKeysAreRejected<Id>(encoded: string, parse: string -> Option<Id>)
    requires IsFrameObjectKey(encoded)
    ensures VideoIdFromStorageKey(encoded, parse) == None
  {
    var rest := DecodedFrame(encoded);
    if rest.Some? {
      SplitAtSlash("frames", rest.value);
    }
  }

  lemma DecodedFrame(encoded: string) returns (x: Option<string>)
    requires IsFrameObjectKey(encoded)
    ensures if x.None? then Unescape(encoded).None?
      else Unescape(encoded).Some? && TrimPrefix(Unescape(encoded).value, "/") == "frames" + "/" + x.value
  {
    var lead := if HasPrefix(encoded, "/") then "/frames/" else "frames/";
    var rest := encoded[|lead|..];
    assert encoded == lead + rest;
    UnescapePrefix(lead, rest);
    x := Unescape(rest);
    if x.Some? {
      FramePrefix(x.value);
    }
  }

  lemma FramePrefix(x: string)
    ensures TrimPrefix("frames/" + x, "/") == "frames" + "/" + x
    ensures TrimPrefix("/frames/" + x, "/") == "frames" + "/" + x
  {
    assert ("frames/" + x)[0] == 'f';
    assert ("/frames/" + x)[0] == '/';
  }

  /** No thumbnail key is taken for a video. */
  lemma ThumbnailKeysAreRejected<Id>(encoded: string, parse: string -> Option<Id>)
    requires IsThumbnailObjectKey(encoded)
    ensures VideoIdFromStorageKey(encoded, parse) == None
  {
    var x := DecodedSuffix(encoded, "/" + THUMBNAIL);
    if x.Some? {
      EndsInThumbnail(x.value);
    }
  }

  lemma SuffixSplits(s: string, p: string, b: string)
    requires HasSuffix(TrimPrefix(s, p), b)
    ensures |b| <= |s| && s == s[..|s| - |b|] + b
  {
    var k := TrimPrefix(s, p);
    assert k[|k| - |b|..] == s[|s| - |b|..];
  }

  lemma DecodedSuffix(encoded: string, b: string) returns (x: Option<string>)
    requires Plain(b) && b != "" && !IsHex(b[0]) && HasSuffix(TrimPrefix(encoded, "/"), b)
    ensures Unescape(encoded) == if x.None? then None else Some(x.value + b)
  {
    SuffixSplits(encoded, "/", b);
    x := None;
    if Unescape(encoded).Some? {
      var y := UnescapeSuffix(encoded[..|encoded| - |b|], b);
      x := Some(y);
    }
  }

  lemma EndsInThumbnail(x: string)
    ensures var parts := SplitPath(TrimPrefix(x + ("/" + THUMBNAIL), "/")); parts[|parts| - 1] == THUMBNAIL
  {
    var s := x + ("/" + THUMBNAIL);
    if x == "" {
      assert TrimPrefix(s, "/") == THUMBNAIL;
      SplitNone(THUMBNAIL);
    } else if x[0] == '/' {
      assert TrimPrefix(s, "/") == x[1..] + "/" + THUMBNAIL;
      LastPart(x[1..], THUMBNAIL);
    } else {
      assert s[0] == x[0];
      assert TrimPrefix(s, "/") == s == x + "/" + THUMBNAIL;
      LastPart(x, THUMBNAIL);
    }
  }

  /** No segment key is taken for a video. */
  lemma SegmentKeysAreRejected<Id>(text: string, segment: nat, parse: string -> Option<Id>)
    requires IsIdText(text)
    ensures VideoIdFromStorageKey(NewSegmentStorageKey(text, segment), parse) == None
  {
    var key := NewSegmentStorageKey(text, segment);
    UnescapePlain(key);
    assert key[0] == 'v';
    assert TrimPrefix(key, "/") == key;
    SegmentKeyParts(text, segment);
  }

  function LeadingDigits(s: string): nat {
    if s == "" || !IsDigit(s[0]) then 0 else 1 + LeadingDigits(s[1..])
  }

  lemma {:induction false} LeadingDigitsAre(a: string, c: char, x: string)
    requires AllDigits(a) && !IsDigit(c)
    ensures LeadingDigits(a + [c] + x) == |a|
  {
    if a != "" {
      assert (a + [c] + x)[1..] == a[1..] + [c] + x;
      LeadingDigitsAre(a[1..], c, x);
    }
  }

  lemma DigitsEnd(a: string, b: string, c: char, x: string, y: string)
    requires AllDigits(a) && AllDigits(b) && !IsDigit(c) && a + [c] + x == b + [c] + y
    ensures a == b && x == y
  {
    LeadingDigitsAre(a, c, x);
    LeadingDigitsAre(b, c, y);
    assert (a + [c] + x)[..|a|] == a && (b + [c] + y)[..|b|] == b;
    assert (a + [c] + x)[|a| + 1..] == x && (b + [c] + y)[|b| + 1..] == y;
  }

  /** Different frames, also with indices wider than the padding, have different keys. */
  lemma FrameKeysAreInjective(id1: string, s1: nat, i1: nat, id2: string, s2: nat, i2: nat)
    requires IsIdText(id1) && IsIdText(id2)
    requires NewFrameStorageKey(id1, s1, i1) == NewFrameStorageKey(id2, s2, i2)
    ensures id1 == id2 && s1 == s2 && i1 == i2
  {
    FrameKeyParts(id1, s1, i1);
    FrameKeyParts(id2, s2, i2);
    var p1, p2, q1, q2 := Padded(s1, 2), Padded(s2, 2), Padded(i1, 4), Padded(i2, 4);
    assert FrameFileName(s1, i1) == FrameFileName(s2, i2);
    DigitsEnd(p1, p2, '_', q1 + ".jpg", q2 + ".jpg");
    assert q1 + ".jpg" == q1 + ['.'] + "jpg" && q2 + ".jpg" == q2 + ['.'] + "jpg";
    DigitsEnd(q1, q2, '.', "jpg", "jpg");
    PaddingIsInjective(s1, s2, 2);
    PaddingIsInjective(i1, i2, 4);
  }

  function FrameFileName(segment: nat, index: nat): string {
    Padded(segment, 2) + ['_'] + (Padded(index, 4) + ".jpg")
  }

  lemma FrameKeyParts(id: string, segment: nat, index: nat)
    requires IsIdText(id)
    ensures SplitPath(NewFrameStorageKey(id, segment, index)) == ["frames", id, FrameFileName(segment, index)]
  {
    var name := FrameFileName(segment, index);
    assert NewFrameStorageKey(id, segment, index) == "frames" + "/" + id + "/" + name;
    SplitThree("frames", id, name);
  }

  /** Different segments have different keys. */
  lemma SegmentKeysAreInjective(id1: string, s1: nat, id2: string, s2: nat)
    requires IsIdText(id1) && IsIdText(id2) && NewSegmentStorageKey(id1, s1) == NewSegmentStorageKey(id2, s2)
    ensures id1 == id2 && s1 == s2
  {
    var rest1, rest2 := "segments/" + SegmentFileName(s1), "segments/" + SegmentFileName(s2);
    SegmentKeyParts(id1, s1);
    SegmentKeyParts(id2, s2);
    ParseInvertsSegmentName(s1);
    ParseInvertsSegmentName(s2);
  }

  lemma SegmentKeyParts(id: string, segment: nat)
    requires IsIdText(id)
    ensures SplitPath(NewSegmentStorageKey(id, segment)) == ["videos", id, "segments", SegmentFileName(segment)]
  {
    var name := SegmentFileName(segment);
    assert NoSlash(name);
    SplitFour("videos", id, "segments", name);
    assert NewSegmentStorageKey(id, segment) == "videos" + "/" + (id + "/" + ("segments" + "/" + name));
  }

  lemma SplitFour(a: string, b: string, c: string, d: string)
    requires NoSlash(a) && NoSlash(b) && NoSlash(c) && NoSlash(d)
    ensures SplitPath(a + "/" + (b + "/" + (c + "/" + d))) == [a, b, c, d]
  {
    SplitAtSlash(a, b + "/" + (c + "/" + d));
    SplitAtSlash(b, c + "/" + d);
    SplitAtSlash(c, d);
    SplitNone(d);
  }

  /** Each kind of key is recognised for what it is, and not for the other. */
  lemma KeysAreRecognized(id: string, segment: nat, index: nat)
    requires IsIdText(id)
    ensures IsFrameObjectKey(NewFrameStorageKey(id, segment, index))
    ensures IsThumbnailObjectKey(NewThumbnailStorageKey(id))
    ensures !IsFrameObjectKey(NewThumbnailStorageKey(id)) &&
      !IsThumbnailObjectKey(NewFrameStorageKey(id, segment, index))
  {
    var f, t := NewFrameStorageKey(id, segment, index), NewThumbnailStorageKey(id);
    assert f[0] == 'f' && t[0] == 'v';
    assert t[|t| - |"/" + THUMBNAIL|..] == "/" + THUMBNAIL;
  }
}
