/**
 Byte-limited truncation of project names.  The cleaned name is encoded as UTF-8 with surrogates
 passed through, cut after 80 bytes wherever that falls, and decoded with malformed input ignored.
 Encoding and well-formedness follow sections 3 and 4 of RFC 3629.
 */
module NameTruncation {
  import opened Basics

  type CodePoint = c: int | 0 <= c < 0x110000

  const MAX_BYTES := 80

  predicate IsSurrogate(c: CodePoint) {
    0xD800 <= c < 0xE000
  }

  // ---------------------------------------------------------------------------
  // UTF-8
  // ---------------------------------------------------------------------------

  /** One code point, surrogates included (the "surrogatepass" handler). */
  function EncodeOne(c: CodePoint): (b: seq<Byte>)
    ensures 1 <= |b| <= 4
  {
    if c < 0x80 then [c]
    else if c < 0x800 then [0xC0 + c / 64, 0x80 + c % 64]
    else if c < 0x10000 then [0xE0 + c / 4096, 0x80 + c / 64 % 64, 0x80 + c % 64]
    else [0xF0 + c / 262144, 0x80 + c / 4096 % 64, 0x80 + c / 64 % 64, 0x80 + c % 64]
  }

  function Encode(s: seq<CodePoint>): seq<Byte> {
    if s == [] then [] else EncodeOne(s[0]) + Encode(s[1..])
  }

  predicate IsTail(b: Byte) {
    0x80 <= b < 0xC0
  }

  /** The length of the well-formed sequence at the front of `b`, or 0 if there is none. */
  function SequenceLength(b: seq<Byte>): (n: nat)
    ensures n <= |b| && n <= 4
  {
    if b == [] then 0
    else if b[0] < 0x80 then 1
    else if 0xC2 <= b[0] < 0xE0 then
      if |b| >= 2 && IsTail(b[1]) then 2 else 0
    else if 0xE0 <= b[0] < 0xF0 then
      if && |b| >= 3 && IsTail(b[1]) && IsTail(b[2])
         && (b[0] == 0xE0 ==> b[1] >= 0xA0) && (b[0] == 0xED ==> b[1] < 0xA0)
      then 3 else 0
    else if 0xF0 <= b[0] < 0xF5 then
      if && |b| >= 4 && IsTail(b[1]) && IsTail(b[2]) && IsTail(b[3])
         && (b[0] == 0xF0 ==> b[1] >= 0x90) && (b[0] == 0xF4 ==> b[1] < 0x90)
      then 4 else 0
    else 0
  }

  function DecodeOne(b: seq<Byte>): CodePoint
    requires SequenceLength(b) > 0
  {
    var n := SequenceLength(b);
    var lead: int := b[0];
    if n == 1 then lead
    else if n == 2 then (lead - 0xC0) * 64 + Digit(b[1])
    else if n == 3 then ((lead - 0xE0) * 64 + Digit(b[1])) * 64 + Digit(b[2])
    else (((lead - 0xF0) * 64 + Digit(b[1])) * 64 + Digit(b[2])) * 64 + Digit(b[3])
  }

  function Digit(b: Byte): int {
    b - 0x80
  }

  /** Decoding that drops every byte which starts no well-formed sequence. */
  function DecodeIgnore(b: seq<Byte>): seq<CodePoint>
    decreases |b|
  {
    if b == [] then []
    else
      var n := SequenceLength(b);
      if n > 0 then [DecodeOne(b)] + DecodeIgnore(b[n..]) else DecodeIgnore(b[1..])
  }

  // ---------------------------------------------------------------------------
  // The sanitizer
  // ---------------------------------------------------------------------------

  /** The characters that no directory name may hold: < > : " / \ | ? * and the controls. */
  predicate IsInvalid(c: CodePoint) {
    c < 0x20 || c in {0x3C, 0x3E, 0x3A, 0x22, 0x2F, 0x5C, 0x7C, 0x3F, 0x2A}
  }

  predicate IsSpace(c: CodePoint) {
    || 0x09 <= c <= 0x0D || 0x1C <= c <= 0x20 || c == 0x85 || c == 0xA0 || c == 0x1680
    || 0x2000 <= c <= 0x200A || c == 0x2028 || c == 0x2029 || c == 0x202F || c == 0x205F || c == 0x3000
  }

  predicate IsDotOrBlank(c: CodePoint) {
    c == 0x2E || c == 0x20
  }

  function StripLeft(s: seq<CodePoint>, p: CodePoint -> bool): seq<CodePoint> {
    if s != [] && p(s[0]) then StripLeft(s[1..], p) else s
  }

  function StripRight(s: seq<CodePoint>, p: CodePoint -> bool): seq<CodePoint> {
    if s != [] && p(s[|s| - 1]) then StripRight(s[..|s| - 1], p) else s
  }

  function Substitute(s: seq<CodePoint>): seq<CodePoint> {
    seq(|s|, i requires 0 <= i < |s| => if IsInvalid(s[i]) then 0x5F else s[i])
  }

  function Clean(name: seq<CodePoint>): seq<CodePoint> {
    StripRight(StripRight(StripLeft(Substitute(name), IsSpace), IsSpace), IsDotOrBlank)
  }

  function Sanitize(name: seq<CodePoint>): seq<CodePoint> {
    var cleaned := Clean(name);
    var encoded := Encode(cleaned);
    if |encoded| <= MAX_BYTES then cleaned else DecodeIgnore(encoded[..MAX_BYTES])
  }

  // ---------------------------------------------------------------------------
  // What the cut keeps
  // ---------------------------------------------------------------------------

  /** `p` is the longest prefix of `s` whose encoding fits in `limit` bytes. */
  ghost predicate IsLongestFit(p: seq<CodePoint>, s: seq<CodePoint>, limit: nat) {
    && p <= s
    && |Encode(p)| <= limit
    && forall q: seq<CodePoint> | q <= s && |q| > |p| :: |Encode(q)| > limit
  }

  function LongestFit(s: seq<CodePoint>, limit: nat): seq<CodePoint> {
    if s == [] || |EncodeOne(s[0])| > limit then []
    else [s[0]] + LongestFit(s[1..], limit - |EncodeOne(s[0])|)
  }

  function DropSurrogates(s: seq<CodePoint>): seq<CodePoint> {
    if s == [] then []
    else if IsSurrogate(s[0]) then DropSurrogates(s[1..])
    else [s[0]] + DropSurrogates(s[1..])
  }

  lemma {:induction false} LongestFitIsLongest(s: seq<CodePoint>, limit: nat)
    ensures IsLongestFit(LongestFit(s, limit), s, limit)
  {
    var p := LongestFit(s, limit);
    if p != [] {
      var left := limit - |EncodeOne(s[0])|;
      LongestFitIsLongest(s[1..], left);
      assert p[1..] == LongestFit(s[1..], left);
      assert Encode(p) == EncodeOne(s[0]) + Encode(p[1..]);
      forall q: seq<CodePoint> | q <= s && |q| > |p| ensures |Encode(q)| > limit {
        assert q[1..] <= s[1..] && |q[1..]| > |p[1..]|;
      }
    } else {
      forall q: seq<CodePoint> | q <= s && |q| > 0 ensures |Encode(q)| > limit {
        assert q[0] == s[0];
      }
    }
  }

  lemma LongestFitIsUnique(p: seq<CodePoint>, q: seq<CodePoint>, s: seq<CodePoint>, limit: nat)
    requires IsLongestFit(p, s, limit) && IsLongestFit(q, s, limit)
    ensures p == q
  {
  }

  // ---------------------------------------------------------------------------
  // Decoding what encoding produced
  // ---------------------------------------------------------------------------

  lemma DecodeEncodedOne(c: CodePoint, rest: seq<Byte>)
    requires !IsSurrogate(c)
    ensures SequenceLength(EncodeOne(c) + rest) == |EncodeOne(c)|
    ensures DecodeOne(EncodeOne(c) + rest) == c
  {
    Digits(c);
    var b := EncodeOne(c) + rest;
    if c < 0x80 {
    } else if c < 0x800 {
      assert SequenceLength(b) == 2;
    } else if c < 0x10000 {
      assert SequenceLength(b) == 3;
    } else {
      assert SequenceLength(b) == 4;
    }
  }

  lemma Digits(c: nat)
    ensures c / 4096 * 64 + c / 64 % 64 == c / 64
    ensures c / 262144 * 64 + c / 4096 % 64 == c / 4096
  {
    assert c / 64 / 64 == c / 4096;
    assert c / 4096 / 64 == c / 262144;
  }

  lemma {:induction false} SkipTails(b: seq<Byte>, n: nat)
    requires n <= |b| && forall i | 0 <= i < n :: IsTail(b[i])
    ensures DecodeIgnore(b) == DecodeIgnore(b[n..])
  {
    if n > 0 {
      SkipTails(b[1..], n - 1);
      assert b[1..][n - 1..] == b[n..];
    } else {
      assert b[0..] == b;
    }
  }

  /** A whole encoded code point decodes to itself; an encoded surrogate decodes to nothing. */
  lemma DecodeFront(c: CodePoint, rest: seq<Byte>)
    ensures DecodeIgnore(EncodeOne(c) + rest) == (if IsSurrogate(c) then [] else [c]) + DecodeIgnore(rest)
  {
    var b := EncodeOne(c) + rest;
    if IsSurrogate(c) {
      assert b[0] == 0xED && b[1] >= 0xA0 && SequenceLength(b) == 0;
      SkipTails(b[1..], 2);
      assert b[1..][2..] == rest;
    } else {
      DecodeEncodedOne(c, rest);
      assert b[|EncodeOne(c)|..] == rest;
    }
  }

  /** The cut-off front of one encoded code point decodes to nothing. */
  lemma DecodeSplit(c: CodePoint, n: nat)
    requires n < |EncodeOne(c)|
    ensures DecodeIgnore(EncodeOne(c)[..n]) == []
  {
    var b := EncodeOne(c)[..n];
    if n > 0 {
      assert SequenceLength(b) == 0;
      SkipTails(b[1..], n - 1);
    }
  }

  lemma {:induction false} DecodeCut(s: seq<CodePoint>, n: nat)
    requires n <= |Encode(s)|
    ensures DecodeIgnore(Encode(s)[..n]) == DropSurrogates(LongestFit(s, n))
  {
    if s == [] {
    } else if |EncodeOne(s[0])| > n {
      assert Encode(s)[..n] == EncodeOne(s[0])[..n];
      DecodeSplit(s[0], n);
    } else {
      var k := |EncodeOne(s[0])|;
      assert Encode(s)[..n] == EncodeOne(s[0]) + Encode(s[1..])[..n - k];
      DecodeFront(s[0], Encode(s[1..])[..n - k]);
      DecodeCut(s[1..], n - k);
      assert LongestFit(s, n)[1..] == LongestFit(s[1..], n - k);
    }
  }

  lemma {:induction false} WholeFits(s: seq<CodePoint>)
    ensures LongestFit(s, |Encode(s)|) == s
  {
    if s != [] { WholeFits(s[1..]); }
  }

  lemma {:induction false} NothingToDrop(s: seq<CodePoint>)
    ensures |DropSurrogates(s)| <= |s|
    ensures DropSurrogates(s) == s <==> forall c | c in s :: !IsSurrogate(c)
  {
    if s != [] {
      NothingToDrop(s[1..]);
      assert s == [s[0]] + s[1..];
      if IsSurrogate(s[0]) {
        assert s[0] in s && |DropSurrogates(s)| < |s|;
      } else {
        assert DropSurrogates(s)[1..] == DropSurrogates(s[1..]);
      }
    }
  }

  /** Encoding and decoding round-trip exactly on the texts without surrogates. */
  lemma RoundTrip(s: seq<CodePoint>)
    ensures DecodeIgnore(Encode(s)) == s <==> forall c | c in s :: !IsSurrogate(c)
  {
    DecodeCut(s, |Encode(s)|);
    assert Encode(s)[..|Encode(s)|] == Encode(s);
    WholeFits(s);
    NothingToDrop(s);
  }

  /**
   The sanitized name, for every input: the longest whole-character prefix of the cleaned name that
   fits, from which a cut removes surrogates as well.
   */
  lemma SanitizeIsLongestFit(name: seq<CodePoint>)
    ensures var cleaned := Clean(name);
            && (|Encode(cleaned)| <= MAX_BYTES ==> Sanitize(name) == cleaned == LongestFit(cleaned, MAX_BYTES))
            && (|Encode(cleaned)| > MAX_BYTES ==> Sanitize(name) == DropSurrogates(LongestFit(cleaned, MAX_BYTES)))
    ensures IsLongestFit(Sanitize(name), Clean(name), MAX_BYTES) <==>
            || |Encode(Clean(name))| <= MAX_BYTES
            || forall c | c in LongestFit(Clean(name), MAX_BYTES) :: !IsSurrogate(c)
  {
    var cleaned := Clean(name);
    var fit := LongestFit(cleaned, MAX_BYTES);
    LongestFitIsLongest(cleaned, MAX_BYTES);
    if |Encode(cleaned)| <= MAX_BYTES {
      assert cleaned <= cleaned;
      assert fit == cleaned;
    } else {
      DecodeCut(cleaned, MAX_BYTES);
      NothingToDrop(fit);
    }
  }

  lemma {:induction false} StripLeftSplits(s: seq<CodePoint>, p: CodePoint -> bool) returns (n: nat)
    ensures n <= |s| && StripLeft(s, p) == s[n..] && (n < |s| ==> !p(s[n]))
    ensures forall i | 0 <= i < n :: p(s[i])
  {
    if s != [] && p(s[0]) {
      var m := StripLeftSplits(s[1..], p);
      n := m + 1;
      assert s[1..][m..] == s[n..];
      assert forall i | 0 < i < n :: s[i] == s[1..][i - 1];
    } else {
      n := 0;
    }
  }

  lemma {:induction false} StripRightSplits(s: seq<CodePoint>, p: CodePoint -> bool) returns (n: nat)
    ensures n <= |s| && StripRight(s, p) == s[..n] && (n > 0 ==> !p(s[n - 1]))
    ensures forall i | n <= i < |s| :: p(s[i])
  {
    if s != [] && p(s[|s| - 1]) {
      n := StripRightSplits(s[..|s| - 1], p);
      assert s[..|s| - 1][..n] == s[..n];
      assert forall i | n <= i < |s| - 1 :: s[i] == s[..|s| - 1][i];
    } else {
      n := |s|;
    }
  }

  /** The white space that `strip` removes: 29 code points, controls included. */
  lemma SpaceMeans(c: CodePoint)
    ensures IsSpace(c) <==>
            c in {9, 10, 11, 12, 13, 28, 29, 30, 31, 32, 133, 160, 5760, 8192, 8193, 8194, 8195, 8196, 8197, 8198, 8199,
                  8200, 8201, 8202, 8232, 8233, 8239, 8287, 12288}
  {
  }

  /**
   The cleaned name is one piece of the name, with forbidden characters replaced.  Before it there is
   only white space; after it dots and blanks, then white space; and it could not be cut further.
   */
  lemma CleanIsTrimmed(name: seq<CodePoint>) returns (i: nat, j: nat, k: nat)
    ensures i <= j <= k <= |name| && Clean(name) == Substitute(name)[i..j]
    ensures var s := Substitute(name);
            && (forall x | 0 <= x < i :: IsSpace(s[x]))
            && (forall x | j <= x < k :: s[x] == '.' as int || s[x] == ' ' as int)
            && (forall x | k <= x < |s| :: IsSpace(s[x]))
            && (i < j ==> !IsSpace(s[i]) && s[j - 1] != '.' as int && s[j - 1] != ' ' as int)
            && (i < k ==> !IsSpace(s[k - 1]))
  {
    var s := Substitute(name);
    i := StripLeftSplits(s, IsSpace);
    var n := StripRightSplits(s[i..], IsSpace);
    var m := StripRightSplits(s[i..][..n], IsDotOrBlank);
    j, k := i + m, i + n;
    assert s[i..][..n] == s[i..k];
    assert s[i..k][..m] == s[i..j];
    assert forall x | k <= x < |s| :: s[x] == s[i..][x - i];
    assert forall x | j <= x < k :: s[x] == s[i..k][x - i];
  }

  /** The characters that a directory name must not hold, as text. */
  predicate IsForbidden(c: CodePoint) {
    c < 32 || exists k | 0 <= k < 9 :: c == "<>:\"/\\|?*"[k] as int
  }

  lemma InvalidMeans(c: CodePoint)
    ensures IsInvalid(c) <==> IsForbidden(c)
  {
    var text := "<>:\"/\\|?*";
    assert text[0] as int == 0x3C && text[1] as int == 0x3E && text[2] as int == 0x3A;
    assert text[3] as int == 0x22 && text[4] as int == 0x2F && text[5] as int == 0x5C;
    assert text[6] as int == 0x7C && text[7] as int == 0x3F && text[8] as int == 0x2A;
  }

  /** Exactly the forbidden characters are replaced, each by an underscore. */
  lemma SubstituteMeans(name: seq<CodePoint>)
    ensures |Substitute(name)| == |name|
    ensures forall i | 0 <= i < |name| :: Substitute(name)[i] == if IsForbidden(name[i]) then '_' as int else name[i]
  {
    forall i | 0 <= i < |name|
      ensures Substitute(name)[i] == if IsForbidden(name[i]) then '_' as int else name[i]
    {
      InvalidMeans(name[i]);
    }
  }

  lemma CleanKeeps(name: seq<CodePoint>)
    ensures forall c | c in Clean(name) :: !IsInvalid(c) && (c in name || c == 0x5F)
  {
    var i, j, k := CleanIsTrimmed(name);
    assert forall c | c in Substitute(name) :: !IsInvalid(c) && (c in name || c == 0x5F);
  }

  /** For a name without surrogates the result is exactly the longest prefix that fits, and safe to store. */
  lemma SanitizeWithoutSurrogates(name: seq<CodePoint>)
    requires forall c | c in name :: !IsSurrogate(c)
    ensures IsLongestFit(Sanitize(name), Clean(name), 80)
    ensures forall c | c in Sanitize(name) :: !IsForbidden(c)
  {
    CleanKeeps(name);
    forall c ensures IsInvalid(c) <==> IsForbidden(c) { InvalidMeans(c); }
    LongestFitIsLongest(Clean(name), MAX_BYTES);
    SanitizeIsLongestFit(name);
    assert forall c | c in Sanitize(name) :: c in Clean(name);
  }

  lemma {:induction false} EncodeIsNoShorter(s: seq<CodePoint>)
    ensures |Encode(s)| >= |s|
  {
    if s != [] { EncodeIsNoShorter(s[1..]); }
  }

  /** A name without forbidden characters, white space, dots and blanks is clean. */
  lemma PlainIsClean(name: seq<CodePoint>)
    requires forall x | 0 <= x < |name| :: !IsInvalid(name[x]) && !IsSpace(name[x]) && !IsDotOrBlank(name[x])
    ensures Clean(name) == name
  {
    assert Substitute(name) == name;
    var i, j, k := CleanIsTrimmed(name);
    assert i == 0 && k == |name| && j == k;
    assert name[0..|name|] == name;
  }

  /** A long name that starts with a surrogate: the cut drops the surrogate, which would have fitted. */
  lemma CutDropsFittingSurrogate(n: nat) returns (name: seq<CodePoint>)
    requires n >= MAX_BYTES
    ensures name == [0xD800] + seq(n, _ => 0x61) && Clean(name) == name
    ensures !IsLongestFit(Sanitize(name), Clean(name), MAX_BYTES)
  {
    name := [0xD800] + seq(n, _ => 0x61);
    PlainIsClean(name);
    EncodeIsNoShorter(name);
    assert |EncodeOne(name[0])| == 3;
    var fit := LongestFit(name, MAX_BYTES);
    assert fit == [name[0]] + LongestFit(name[1..], MAX_BYTES - 3);
    assert fit[0] == 0xD800;
    SanitizeIsLongestFit(name);
  }
}
