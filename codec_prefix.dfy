/**
 * The codec-prefix test of variantHasExplicitCodecWithPrefix: the CODECS attribute of a
 * variant is split with the Java regular expression `(\s*,\s*)|(\s*$)` and each piece is
 * tested with String.startsWith, as a loop that stops at the first match.
 *
 * The split is written out as the pieces that String.split produces for this separator:
 * a piece runs from a restart point (position 0, or the end of a separator) to the
 * whitespace before the next comma; the separator `\s*$` at the end of the string adds
 * one or two empty pieces, and String.split then drops the trailing empty strings.
 * Without MULTILINE, `$` also matches just before a line terminator that ends the input;
 * of the terminators only U+0085, U+2028 and U+2029 are not `\s`, so a string ending in
 * one of them splits before it, and the terminator becomes a piece of its own. The
 * lemma PrefixTestCharacterization states the test in plain terms: some token of the
 * codec string, where tokens start at position 0 or after a comma and the whitespace
 * that follows it, starts with the prefix.
 */
module CodecPrefix {
  import opened Options

  /** Java's `\s`: space, tab, newline, vertical tab, form feed, carriage return. */
  predicate IsSpace(c: char) {
    c == ' ' || c == '\t' || c == '\n' || c == '\U{0B}' || c == '\U{0C}' || c == '\r'
  }

  /** The line terminators that `$` stops before and that are not `\s`: U+0085, U+2028, U+2029. */
  predicate IsLineTerminator(c: char) {
    c == '\U{0085}' || c == '\U{2028}' || c == '\U{2029}'
  }

  /** String.startsWith(prefix, offset): the prefix stands at `offset`, compared character by character. */
  predicate StartsWithAt(s: string, offset: nat, prefix: string)
    requires offset <= |s|
    decreases |prefix|
  {
    |prefix| == 0 || (offset < |s| && s[offset] == prefix[0] && StartsWithAt(s, offset + 1, prefix[1..]))
  }

  /** String.startsWith(prefix). */
  predicate StartsWith(t: string, prefix: string) {
    StartsWithAt(t, 0, prefix)
  }

  /** The end of the run of whitespace that starts at position `i` (greedy `\s*`). */
  function SpaceEnd(s: string, i: nat): (j: nat)
    requires i <= |s|
    ensures i <= j <= |s|
    decreases |s| - i
  {
    if i < |s| && IsSpace(s[i]) then SpaceEnd(s, i + 1) else i
  }

  /** The first comma at or after `k`, or |s| when there is none. */
  function NextComma(s: string, k: nat): (t: nat)
    requires k <= |s|
    ensures k <= t <= |s|
    ensures t < |s| ==> s[t] == ','
    decreases |s| - k
  {
    if k == |s| || s[k] == ',' then k else NextComma(s, k + 1)
  }

  /** Where the whitespace before position `t` begins, not going below `k`. */
  function TrimStart(s: string, k: nat, t: nat): (e: nat)
    requires k <= t <= |s|
    ensures k <= e <= t
    ensures e > k ==> !IsSpace(s[e - 1])
    decreases t - k
  {
    if t > k && IsSpace(s[t - 1]) then TrimStart(s, k, t - 1) else t
  }

  /**
   * The pieces of the codec string from restart point `k` on, read directly off the string:
   * each piece runs to the whitespace before the next comma; after the last one come one or
   * two empty strings, the second one when the string ends in whitespace.
   */
  function Pieces(s: string, k: nat): seq<string>
    requires k <= |s|
    decreases |s| - k, 1
  {
    [Piece(s, k)] + PiecesAfter(s, k)
  }

  /** The piece from restart point `k` is the last one and the string ends in a line terminator. */
  predicate EndsAtTerminator(s: string, k: nat)
    requires k <= |s|
  {
    k < |s| && NextComma(s, k) == |s| && IsLineTerminator(s[|s| - 1])
  }

  /**
   * Where the piece that starts at restart point `k` ends: at the whitespace before the
   * next comma, or, in the last piece of a string ending in a line terminator, at the
   * whitespace before that terminator.
   */
  function PieceEnd(s: string, k: nat): (e: nat)
    requires k <= |s|
    ensures k <= e <= |s|
    ensures EndsAtTerminator(s, k) ==> e < |s|
  {
    if EndsAtTerminator(s, k) then TrimStart(s, k, |s| - 1) else TrimStart(s, k, NextComma(s, k))
  }

  /** The piece that starts at restart point `k`. */
  function Piece(s: string, k: nat): string
    requires k <= |s|
  {
    s[k..PieceEnd(s, k)]
  }

  /**
   * The pieces after the one at `k`. Before a final line terminator the separator `\s*$`
   * matches twice, once over the whitespace (when there is some; the empty match that
   * follows gives an empty piece) and once empty, just before the terminator; the
   * terminator is then the piece up to the empty match at the end.
   */
  function PiecesAfter(s: string, k: nat): seq<string>
    requires k <= |s|
    decreases |s| - k, 0
  {
    var t := NextComma(s, k);
    if t < |s| then Pieces(s, SpaceEnd(s, t + 1))
    else if EndsAtTerminator(s, k) then
      (if PieceEnd(s, k) < |s| - 1 then ["", [s[|s| - 1]], ""] else [[s[|s| - 1]], ""])
    else if TrimStart(s, k, t) == |s| then [""] else ["", ""]
  }

  function DropTrailingEmpty(pieces: seq<string>): (r: seq<string>)
    ensures |r| <= |pieces| && r == pieces[..|r|]
    ensures |r| == 0 || r[|r| - 1] != ""
    ensures forall k :: |r| <= k < |pieces| ==> pieces[k] == ""
  {
    if |pieces| > 0 && pieces[|pieces| - 1] == "" then DropTrailingEmpty(pieces[..|pieces| - 1])
    else pieces
  }

  /**
   * String.split(regex) with limit 0 for the codec separator: the pieces without their
   * trailing empty strings. The empty string splits into itself. A single line terminator
   * does too: the empty match before it at position 0 gives no leading empty piece.
   */
  function JavaSplit(s: string): seq<string> {
    if |s| == 0 || (|s| == 1 && IsLineTerminator(s[0])) then [s] else DropTrailingEmpty(Pieces(s, 0))
  }

  /** The loop over the pieces that returns true at the first one starting with the prefix. */
  predicate AnyStartsWith(tokens: seq<string>, prefix: string) {
    exists i :: 0 <= i < |tokens| && StartsWith(tokens[i], prefix)
  }

  /** variantHasExplicitCodecWithPrefix: an absent or empty codec string never matches. */
  predicate HasExplicitCodecWithPrefix(codecs: Option<string>, prefix: string) {
    codecs.Some? && |codecs.value| > 0 && AnyStartsWith(JavaSplit(codecs.value), prefix)
  }

  /** Position `i` follows a comma and, after it, whitespace only. */
  predicate AfterComma(s: string, i: nat)
    requires i <= |s|
  {
    i > 0 && (s[i - 1] == ',' || (IsSpace(s[i - 1]) && AfterComma(s, i - 1)))
  }

  /** Position `i` starts a token: it is the start of the string, or it follows a comma and whitespace. */
  predicate TokenStart(s: string, i: nat)
    requires i <= |s|
  {
    i == 0 || AfterComma(s, i)
  }

  /** A prefix of the kind the classification uses: non-empty, no whitespace, no comma, no line terminator. */
  predicate PlainPrefix(prefix: string) {
    |prefix| > 0 &&
    forall k :: 0 <= k < |prefix| ==> !IsSpace(prefix[k]) && prefix[k] != ',' && !IsLineTerminator(prefix[k])
  }

  ghost predicate OccursAtTokenStart(s: string, prefix: string, from: nat) {
    exists i :: from <= i && i + |prefix| <= |s| && TokenStart(s, i) && s[i..i + |prefix|] == prefix
  }

  // ---------------------------------------------------------------------------------
  // Proof of the characterization.

  /** SpaceEnd stops at the first position that is not whitespace. */
  lemma {:induction false} SpaceEndRun(s: string, i: nat)
    requires i <= |s|
    ensures forall k :: i <= k < SpaceEnd(s, i) ==> IsSpace(s[k])
    ensures SpaceEnd(s, i) == |s| || !IsSpace(s[SpaceEnd(s, i)])
    decreases |s| - i
  {
    if i < |s| && IsSpace(s[i]) {
      SpaceEndRun(s, i + 1);
    }
  }

  /** There is no comma between `k` and NextComma(s, k). */
  lemma {:induction false} NoCommaBefore(s: string, k: nat)
    requires k <= |s|
    ensures forall p :: k <= p < NextComma(s, k) ==> s[p] != ','
    decreases |s| - k
  {
    if k < |s| && s[k] != ',' {
      NoCommaBefore(s, k + 1);
    }
  }

  /** Only whitespace lies between TrimStart(s, k, t) and `t`. */
  lemma {:induction false} TrimmedSpace(s: string, k: nat, t: nat)
    requires k <= t <= |s|
    ensures forall p :: TrimStart(s, k, t) <= p < t ==> IsSpace(s[p])
    decreases t - k
  {
    if t > k && IsSpace(s[t - 1]) {
      TrimmedSpace(s, k, t - 1);
    }
  }

  /** Dropping empty strings does not change whether a token starts with a non-empty prefix. */
  lemma DropTrailingEmptyKeepsMatch(pieces: seq<string>, prefix: string)
    requires |prefix| > 0
    ensures AnyStartsWith(DropTrailingEmpty(pieces), prefix) <==> AnyStartsWith(pieces, prefix)
  {
    var r := DropTrailingEmpty(pieces);
    if AnyStartsWith(pieces, prefix) {
      var k :| 0 <= k < |pieces| && StartsWith(pieces[k], prefix);
      assert k < |r|;
      assert r[k] == pieces[k];
    }
    if AnyStartsWith(r, prefix) {
      var k :| 0 <= k < |r| && StartsWith(r[k], prefix);
      assert pieces[k] == r[k];
    }
  }

  /** Within a piece that starts at a restart point `k`, no later position starts a token. */
  lemma {:induction false} NoTokenInside(s: string, k: nat, i: nat)
    requires k < i <= |s| && i <= NextComma(s, k)
    requires k == 0 || !IsSpace(s[k])
    ensures !TokenStart(s, i)
    decreases i
  {
    NoCommaBefore(s, k);
    assert s[i - 1] != ',';
    if i - 1 > k {
      NoTokenInside(s, k, i - 1);
    } else {
      assert k == 0 ==> !AfterComma(s, k);
      assert !AfterComma(s, k + 1);
    }
  }

  /** A prefix that stands at `k` fits in the string, character by character. */
  lemma {:induction false} StartsWithAtChars(s: string, k: nat, prefix: string)
    requires k <= |s| && StartsWithAt(s, k, prefix)
    ensures k + |prefix| <= |s|
    ensures forall j :: 0 <= j < |prefix| ==> s[k + j] == prefix[j]
    decreases |prefix|
  {
    if |prefix| > 0 {
      StartsWithAtChars(s, k + 1, prefix[1..]);
      forall j | 1 <= j < |prefix|
        ensures s[k + j] == prefix[j]
      {
        assert s[k + 1 + (j - 1)] == prefix[1..][j - 1];
      }
    }
  }

  /** Testing the prefix inside the slice s[k..e] is testing it in s, as long as it fits in the slice. */
  lemma {:induction false} StartsWithAtInSlice(s: string, k: nat, e: nat, j: nat, prefix: string)
    requires k <= e <= |s| && j <= e - k
    ensures StartsWithAt(s[k..e], j, prefix) ==> StartsWithAt(s, k + j, prefix)
    ensures StartsWithAt(s, k + j, prefix) && k + j + |prefix| <= e ==> StartsWithAt(s[k..e], j, prefix)
    decreases |prefix|
  {
    if |prefix| > 0 && j < e - k {
      assert s[k..e][j] == s[k + j];
      StartsWithAtInSlice(s, k, e, j + 1, prefix[1..]);
    }
  }

  /** A plain prefix that stands at restart point `k` ends where the piece from `k` ends, or before. */
  lemma PlainPrefixInPiece(s: string, k: nat, prefix: string)
    requires k <= |s| && PlainPrefix(prefix) && StartsWithAt(s, k, prefix)
    ensures k + |prefix| <= PieceEnd(s, k)
  {
    var t := NextComma(s, k);
    var u := if EndsAtTerminator(s, k) then |s| - 1 else t;
    var e := TrimStart(s, k, u);
    StartsWithAtChars(s, k, prefix);
    TrimmedSpace(s, k, u);
    forall p | k <= p < k + |prefix|
      ensures s[p] != ',' && !IsSpace(s[p]) && !IsLineTerminator(s[p])
    {
      assert s[k + (p - k)] == prefix[p - k];
    }
    assert k + |prefix| <= t;
    assert k + |prefix| <= u;
    assert e < u ==> IsSpace(s[e]);
  }

  /** The piece s[k..e] starts with a plain prefix exactly when s does so at position k. */
  lemma PieceStartsWith(s: string, k: nat, prefix: string)
    requires k <= |s| && PlainPrefix(prefix)
    ensures StartsWith(Piece(s, k), prefix) <==> StartsWithAt(s, k, prefix)
  {
    var e := PieceEnd(s, k);
    StartsWithAtInSlice(s, k, e, 0, prefix);
    if StartsWithAt(s, k, prefix) {
      PlainPrefixInPiece(s, k, prefix);
    }
  }

  /** OccursAtTokenStart with the prefix compared character by character. */
  ghost predicate FoundAtTokenStart(s: string, prefix: string, from: nat) {
    exists i :: from <= i <= |s| && TokenStart(s, i) && StartsWithAt(s, i, prefix)
  }

  lemma FoundIffOccurs(s: string, prefix: string, from: nat)
    ensures FoundAtTokenStart(s, prefix, from) <==> OccursAtTokenStart(s, prefix, from)
  {
    if FoundAtTokenStart(s, prefix, from) {
      var i :| from <= i <= |s| && TokenStart(s, i) && StartsWithAt(s, i, prefix);
      StartsWithAtSlice(s, i, prefix);
    }
    if OccursAtTokenStart(s, prefix, from) {
      var i :| from <= i && i + |prefix| <= |s| && TokenStart(s, i) && s[i..i + |prefix|] == prefix;
      StartsWithAtSlice(s, i, prefix);
    }
  }

  /** Token starts from `k` on: position `k` itself, or those from the next restart point on. */
  lemma OccursFromRestart(s: string, k: nat, prefix: string)
    requires k <= |s| && PlainPrefix(prefix)
    requires k == 0 || (TokenStart(s, k) && (k == |s| || !IsSpace(s[k])))
    ensures NextComma(s, k) < |s| ==>
              (FoundAtTokenStart(s, prefix, k) <==>
               StartsWithAt(s, k, prefix) || FoundAtTokenStart(s, prefix, SpaceEnd(s, NextComma(s, k) + 1)))
    ensures NextComma(s, k) == |s| ==> (FoundAtTokenStart(s, prefix, k) <==> StartsWithAt(s, k, prefix))
  {
    var t := NextComma(s, k);
    if t < |s| {
      SpaceEndRun(s, t + 1);
    }
    if FoundAtTokenStart(s, prefix, k) {
      var i :| k <= i <= |s| && TokenStart(s, i) && StartsWithAt(s, i, prefix);
      assert i < |s| && s[i] == prefix[0];
      if k < i <= t {
        NoTokenInside(s, k, i);
      }
      assert i == k || (t < |s| && i >= SpaceEnd(s, t + 1));
      if i != k {
        assert FoundAtTokenStart(s, prefix, SpaceEnd(s, t + 1));
      }
    }
    if t < |s| && FoundAtTokenStart(s, prefix, SpaceEnd(s, t + 1)) {
      var i :| SpaceEnd(s, t + 1) <= i <= |s| && TokenStart(s, i) && StartsWithAt(s, i, prefix);
      assert k <= i;
    }
    if StartsWithAt(s, k, prefix) {
      assert TokenStart(s, k);
    }
  }

  lemma {:induction false} StartsWithAtSlice(s: string, k: nat, prefix: string)
    requires k <= |s|
    ensures StartsWithAt(s, k, prefix) <==> k + |prefix| <= |s| && s[k..k + |prefix|] == prefix
    decreases |prefix|
  {
    if |prefix| > 0 && k < |s| {
      StartsWithAtSlice(s, k + 1, prefix[1..]);
      if k + |prefix| <= |s| {
        assert s[k..k + |prefix|] == [s[k]] + s[k + 1..k + 1 + |prefix[1..]|];
        assert prefix == [prefix[0]] + prefix[1..];
      }
    }
  }

  /** The restart point after the comma at `t` starts a token and does not begin with whitespace. */
  lemma RestartAfterComma(s: string, t: nat)
    requires t < |s| && s[t] == ','
    ensures var end := SpaceEnd(s, t + 1);
            TokenStart(s, end) && (end == |s| || !IsSpace(s[end]))
  {
    SpaceEndRun(s, t + 1);
    AfterCommaSpaces(s, t, SpaceEnd(s, t + 1));
  }

  lemma {:induction false} AfterCommaSpaces(s: string, t: nat, j: nat)
    requires t < j <= |s| && s[t] == ','
    requires forall p :: t < p < j ==> IsSpace(s[p])
    ensures AfterComma(s, j)
    decreases j
  {
    if j - 1 > t {
      AfterCommaSpaces(s, t, j - 1);
    }
  }

  /** The prefix stands at restart point `k` or at one of the restart points after it. */
  ghost predicate FoundFrom(s: string, k: nat, prefix: string)
    requires k <= |s|
    decreases |s| - k
  {
    StartsWithAt(s, k, prefix) ||
    (NextComma(s, k) < |s| && FoundFrom(s, SpaceEnd(s, NextComma(s, k) + 1), prefix))
  }

  /** Some piece from `k` on starts with a plain prefix exactly when the prefix stands at a restart point from `k` on. */
  lemma {:induction false} PiecesFind(s: string, k: nat, prefix: string)
    requires k <= |s| && PlainPrefix(prefix)
    ensures AnyStartsWith(Pieces(s, k), prefix) <==> FoundFrom(s, k, prefix)
    decreases |s| - k
  {
    FirstPieceDecides(s, k, prefix);
    if NextComma(s, k) < |s| {
      PiecesFind(s, SpaceEnd(s, NextComma(s, k) + 1), prefix);
    } else {
      LastPieceAfter(s, k, prefix);
    }
  }

  /** The first piece from `k` matches exactly when the prefix stands at `k`; the trailing empty strings never match. */
  lemma FirstPieceDecides(s: string, k: nat, prefix: string)
    requires k <= |s| && PlainPrefix(prefix)
    ensures AnyStartsWith(Pieces(s, k), prefix) <==> StartsWithAt(s, k, prefix) || AnyStartsWith(PiecesAfter(s, k), prefix)
  {
    PieceStartsWith(s, k, prefix);
    AnyStartsWithCons(Piece(s, k), PiecesAfter(s, k), prefix);
  }

  /** After the last piece only empty strings follow, and a final line terminator alone. */
  lemma LastPieceAfter(s: string, k: nat, prefix: string)
    requires k <= |s| && NextComma(s, k) == |s| && PlainPrefix(prefix)
    ensures !AnyStartsWith(PiecesAfter(s, k), prefix)
  {
    if EndsAtTerminator(s, k) {
      var rest := PiecesAfter(s, k);
      forall i | 0 <= i < |rest|
        ensures !StartsWith(rest[i], prefix)
      {
        if rest[i] != "" {
          assert rest[i] == [s[|s| - 1]];
          assert !IsLineTerminator(prefix[0]);
        }
      }
    } else {
      NoEmptyMatch(PiecesAfter(s, k), prefix);
    }
  }

  lemma AnyStartsWithCons(x: string, rest: seq<string>, prefix: string)
    ensures AnyStartsWith([x] + rest, prefix) <==> StartsWith(x, prefix) || AnyStartsWith(rest, prefix)
  {
    if AnyStartsWith([x] + rest, prefix) {
      var i :| 0 <= i < |[x] + rest| && StartsWith(([x] + rest)[i], prefix);
      if i > 0 {
        assert ([x] + rest)[i] == rest[i - 1];
      }
    }
    if AnyStartsWith(rest, prefix) {
      var i :| 0 <= i < |rest| && StartsWith(rest[i], prefix);
      assert ([x] + rest)[i + 1] == rest[i];
    }
    assert ([x] + rest)[0] == x;
  }

  /** Empty strings never start with a non-empty prefix. */
  lemma {:induction false} NoEmptyMatch(empties: seq<string>, prefix: string)
    requires |prefix| > 0
    requires forall i :: 0 <= i < |empties| ==> empties[i] == ""
    ensures !AnyStartsWith(empties, prefix)
  {
  }

  /** The restart points from `k` on are exactly the token starts from `k` on, as far as a plain prefix can tell. */
  lemma {:induction false} FoundFromOccurs(s: string, k: nat, prefix: string)
    requires k <= |s| && PlainPrefix(prefix)
    requires k == 0 || (TokenStart(s, k) && (k == |s| || !IsSpace(s[k])))
    ensures FoundFrom(s, k, prefix) <==> FoundAtTokenStart(s, prefix, k)
    decreases |s| - k
  {
    var t := NextComma(s, k);
    OccursFromRestart(s, k, prefix);
    if t < |s| {
      RestartAfterComma(s, t);
      FoundFromOccurs(s, SpaceEnd(s, t + 1), prefix);
    }
  }

  /**
   * The codec-prefix test for the prefixes the classification uses: an absent or empty
   * codec string never matches; otherwise the test holds exactly when the prefix occurs,
   * with the same case, at the start of a token, tokens being separated by commas with
   * the whitespace after each comma skipped. Leading whitespace of the first token is kept.
   */
  lemma PrefixTestCharacterization(codecs: Option<string>, prefix: string)
    requires PlainPrefix(prefix)
    ensures codecs.None? ==> !HasExplicitCodecWithPrefix(codecs, prefix)
    ensures codecs.Some? ==>
      (HasExplicitCodecWithPrefix(codecs, prefix) <==> OccursAtTokenStart(codecs.value, prefix, 0))
  {
    if codecs.Some? {
      var s := codecs.value;
      if |s| == 1 && IsLineTerminator(s[0]) {
        assert !IsLineTerminator(prefix[0]);
        assert !StartsWith(s, prefix);
        assert !AnyStartsWith(JavaSplit(s), prefix) by {
          assert JavaSplit(s) == [s];
        }
        assert !OccursAtTokenStart(s, prefix, 0);
      } else if |s| > 0 {
        var pieces := Pieces(s, 0);
        PiecesFind(s, 0, prefix);
        FoundFromOccurs(s, 0, prefix);
        FoundIffOccurs(s, prefix, 0);
        DropTrailingEmptyKeepsMatch(pieces, prefix);
        assert AnyStartsWith(JavaSplit(s), prefix) <==> AnyStartsWith(pieces, prefix);
      }
    }
  }

  /**
   * Before a final line terminator that is not whitespace the string is split, with or
   * without whitespace in front of it, and the terminator is a token of its own.
   */
  lemma FinalTerminatorSplit()
    ensures JavaSplit("avc\U{2028}") == ["avc", "\U{2028}"]
    ensures JavaSplit("avc \U{2028}") == ["avc", "", "\U{2028}"]
    ensures JavaSplit("\U{2028}") == ["\U{2028}"]
    ensures HasExplicitCodecWithPrefix(Some("avc\U{2028}"), "\U{2028}")
    ensures !HasExplicitCodecWithPrefix(Some("avc\U{2028}"), "avc\U{2028}")
  {
    var s := "avc\U{2028}";
    assert NextComma(s, 0) == 4;
    assert EndsAtTerminator(s, 0);
    assert TrimStart(s, 0, 3) == 3;
    assert PieceEnd(s, 0) == 3;
    assert Piece(s, 0) == "avc";
    assert PiecesAfter(s, 0) == ["\U{2028}", ""];
    assert Pieces(s, 0) == ["avc", "\U{2028}", ""];
    assert DropTrailingEmpty(Pieces(s, 0)) == ["avc", "\U{2028}"];
    assert StartsWith(JavaSplit(s)[1], "\U{2028}");
    assert !StartsWith("avc", "avc\U{2028}");
    assert !StartsWith("\U{2028}", "avc\U{2028}");
    var s' := "avc \U{2028}";
    assert NextComma(s', 0) == 5;
    assert EndsAtTerminator(s', 0);
    assert TrimStart(s', 0, 4) == 3;
    assert PieceEnd(s', 0) == 3;
    assert Piece(s', 0) == "avc";
    assert PiecesAfter(s', 0) == ["", "\U{2028}", ""];
    assert Pieces(s', 0) == ["avc", "", "\U{2028}", ""];
    assert DropTrailingEmpty(Pieces(s', 0)) == ["avc", "", "\U{2028}"];
  }
}
