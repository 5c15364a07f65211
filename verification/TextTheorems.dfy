/** What trimming and splitting mean: white space is told apart from words without
    following the steps of the functions that do it. */
module TextTheorems {
  import opened Sequences
  import opened Text

  /** Some white-space character starts at byte i. */
  ghost predicate SpaceAt(s: string, i: nat) {
    exists j: nat :: i <= j <= |s| && IsSpace(s[i..j])
  }

  /** Some white-space character ends at byte j. */
  ghost predicate SpaceBefore(s: string, j: nat) {
    exists i: nat :: i <= j <= |s| && IsSpace(s[i..j])
  }

  /** Nothing but white-space characters. */
  ghost predicate White(s: string) {
    exists pieces: seq<string> :: (forall p :: p in pieces ==> IsSpace(p)) && Flatten(pieces) == s
  }

  /** No white-space character starts anywhere in a word. */
  ghost predicate Word(w: string) {
    w != "" && forall i: nat :: i < |w| ==> !SpaceAt(w, i)
  }

  // ---------- One character ----------

  /** The first byte of a white-space character is not a later byte of any. */
  lemma SpaceBytes(w: string)
    requires IsSpace(w)
    ensures 1 <= |w| <= 3 && !('\U{80}' <= w[0] <= '\U{BF}')
    ensures forall k :: 1 <= k < |w| ==> '\U{80}' <= w[k] <= '\U{BF}'
  {}

  lemma {:induction false} LeadingSpaceOf(w: string, rest: string)
    requires IsSpace(w)
    ensures LeadingSpace(w + rest) == |w|
  {
    var s := w + rest;
    assert s[..|w|] == w;
    if |w| > 1 { assert s[..1][0] == w[0]; }
    if |w| > 2 { assert s[..2][0] == w[0]; }
  }

  lemma {:induction false} TrailingSpaceOf(rest: string, w: string)
    requires IsSpace(w)
    ensures TrailingSpace(rest + w) == |w|
  {
    var s := rest + w;
    assert s[|s| - |w|..] == w;
    if |w| > 1 { assert s[|s| - 1..][0] == w[|w| - 1]; }
    if |w| > 2 { assert s[|s| - 2..][0] == w[|w| - 2]; }
  }

  lemma {:induction false} LeadingSpaceExact(s: string)
    ensures LeadingSpace(s) > 0 <==> SpaceAt(s, 0)
    ensures LeadingSpace(s) > 0 ==> IsSpace(s[..LeadingSpace(s)])
  {
    hide IsSpace;
    assert s[0..LeadingSpace(s)] == s[..LeadingSpace(s)];
    if SpaceAt(s, 0) {
      var j: nat :| j <= |s| && IsSpace(s[0..j]);
      assert s == s[0..j] + s[j..];
      SpaceBytes(s[0..j]);
      LeadingSpaceOf(s[0..j], s[j..]);
    }
  }

  lemma {:induction false} TrailingSpaceExact(s: string)
    ensures TrailingSpace(s) > 0 <==> SpaceBefore(s, |s|)
    ensures TrailingSpace(s) > 0 ==> IsSpace(s[|s| - TrailingSpace(s)..])
  {
    hide IsSpace;
    assert s[|s| - TrailingSpace(s)..|s|] == s[|s| - TrailingSpace(s)..];
    if SpaceBefore(s, |s|) {
      var i: nat :| i <= |s| && IsSpace(s[i..|s|]);
      assert s == s[..i] + s[i..|s|];
      SpaceBytes(s[i..|s|]);
      TrailingSpaceOf(s[..i], s[i..|s|]);
    }
  }

  // ---------- White space ----------

  lemma NoWhite()
    ensures White("")
  {
    assert Flatten<char>([]) == "";
  }

  lemma {:induction false} WhiteFront(s: string) returns (piece: string, rest: string)
    requires White(s) && s != ""
    ensures IsSpace(piece) && White(rest) && s == piece + rest && |rest| < |s|
  {
    var pieces: seq<string> :| (forall p :: p in pieces ==> IsSpace(p)) && Flatten(pieces) == s;
    piece, rest := pieces[0], Flatten(pieces[1..]);
    assert pieces == [piece] + pieces[1..];
    FlattenCons(piece, pieces[1..]);
    SpaceBytes(piece);
  }

  lemma {:induction false} WhiteBack(s: string) returns (rest: string, piece: string)
    requires White(s) && s != ""
    ensures IsSpace(piece) && White(rest) && s == rest + piece && |rest| < |s|
  {
    var pieces: seq<string> :| (forall p :: p in pieces ==> IsSpace(p)) && Flatten(pieces) == s;
    var n := |pieces| - 1;
    rest, piece := Flatten(pieces[..n]), pieces[n];
    SpaceBytes(piece);
  }

  lemma {:induction false} WhiteMore(piece: string, rest: string)
    requires IsSpace(piece) && White(rest)
    ensures White(piece + rest) && White(rest + piece)
  {
    var pieces: seq<string> :| (forall p :: p in pieces ==> IsSpace(p)) && Flatten(pieces) == rest;
    FlattenCons(piece, pieces);
    assert forall p :: p in [piece] + pieces ==> IsSpace(p);
    assert (pieces + [piece])[..|pieces|] == pieces;
    assert forall p :: p in pieces + [piece] ==> IsSpace(p);
    assert Flatten(pieces + [piece]) == rest + piece;
  }

  // ---------- Trimming ----------

  lemma {:induction false} TrimLeftCuts(s: string) returns (gap: string)
    ensures White(gap) && s == gap + TrimLeft(s) && !SpaceAt(TrimLeft(s), 0)
    decreases |s|
  {
    hide IsSpace, LeadingSpace, White, SpaceAt;
    LeadingSpaceExact(s);
    var n := LeadingSpace(s);
    if n > 0 {
      var rest := TrimLeftCuts(s[n..]);
      WhiteMore(s[..n], rest);
      gap := s[..n] + rest;
      assert s == s[..n] + s[n..];
    } else {
      NoWhite();
      gap := "";
    }
  }

  lemma {:induction false} TrimRightCuts(s: string) returns (gap: string)
    ensures White(gap) && s == TrimRight(s) + gap && !SpaceBefore(TrimRight(s), |TrimRight(s)|)
    decreases |s|
  {
    hide IsSpace, TrailingSpace, White, SpaceBefore;
    TrailingSpaceExact(s);
    var n := |s| - TrailingSpace(s);
    if n < |s| {
      var rest := TrimRightCuts(s[..n]);
      WhiteMore(s[n..], rest);
      gap := rest + s[n..];
      assert s == s[..n] + s[n..];
    } else {
      NoWhite();
      gap := "";
    }
  }

  lemma {:induction false} TrimLeftOf(gap: string, rest: string)
    requires White(gap) && !SpaceAt(rest, 0)
    ensures TrimLeft(gap + rest) == rest
    decreases |gap|
  {
    hide IsSpace, LeadingSpace, White, SpaceAt;
    if gap == "" {
      assert gap + rest == rest;
      LeadingSpaceExact(rest);
    } else {
      var piece, more := WhiteFront(gap);
      assert gap + rest == piece + (more + rest);
      SpaceBytes(piece);
      LeadingSpaceOf(piece, more + rest);
      assert (gap + rest)[|piece|..] == more + rest;
      TrimLeftOf(more, rest);
    }
  }

  lemma {:induction false} TrimRightOf(rest: string, gap: string)
    requires White(gap) && !SpaceBefore(rest, |rest|)
    ensures TrimRight(rest + gap) == rest
    decreases |gap|
  {
    hide IsSpace, TrailingSpace, White, SpaceBefore;
    if gap == "" {
      assert rest + gap == rest;
      TrailingSpaceExact(rest);
    } else {
      var more, piece := WhiteBack(gap);
      assert rest + gap == (rest + more) + piece;
      SpaceBytes(piece);
      TrailingSpaceOf(rest + more, piece);
      assert (rest + gap)[..|rest + more|] == rest + more;
      TrimRightOf(rest, more);
    }
  }

  /** White space does not reach from a text into white space after it. */
  lemma {:induction false} SpaceEndsBefore(w: string, tail: string, i: nat)
    requires i < |w| && SpaceAt(w + tail, i) && (tail == "" || SpaceAt(tail, 0))
    ensures SpaceAt(w, i)
  {
    hide IsSpace;
    var s := w + tail;
    var j: nat :| i <= j <= |s| && IsSpace(s[i..j]);
    if j <= |w| {
      assert s[i..j] == w[i..j];
    } else {
      var k: nat :| k <= |tail| && IsSpace(tail[0..k]);
      assert s[i..j][|w| - i] == tail[0];
      SpaceBytes(tail[0..k]);
      SpaceBytes(s[i..j]);
    }
  }

  lemma {:induction false} SpaceInLonger(t: string, after: string, i: nat)
    requires SpaceAt(t, i)
    ensures SpaceAt(t + after, i)
  {
    hide IsSpace;
    var j: nat :| i <= j <= |t| && IsSpace(t[i..j]);
    assert (t + after)[i..j] == t[i..j];
  }

  lemma {:induction false} WhiteStarts(s: string, rest: string)
    requires White(s) && s != ""
    ensures SpaceAt(s + rest, 0)
  {
    hide White, IsSpace;
    var piece, more := WhiteFront(s);
    assert (s + rest)[0..|piece|] == piece;
  }

  /** The middle of a text, between white space at its ends. */
  ghost predicate Trimmed(s: string, t: string) {
    && !SpaceAt(t, 0) && !SpaceBefore(t, |t|)
    && exists before, after :: White(before) && White(after) && s == before + t + after
  }

  lemma {:induction false} TrimSpaceTrims(s: string)
    ensures Trimmed(s, TrimSpace(s))
  {
    hide IsSpace, White, SpaceAt, SpaceBefore, TrimLeft, TrimRight;
    var t := TrimSpace(s);
    var before := TrimLeftCuts(s);
    var after := TrimRightCuts(TrimLeft(s));
    if SpaceAt(t, 0) { SpaceInLonger(t, after, 0); }
    Assoc(before, t, after);
  }

  lemma {:induction false} OnlyTrimmed(before: string, t: string, after: string)
    requires !SpaceAt(t, 0) && !SpaceBefore(t, |t|) && White(before) && White(after)
    ensures TrimSpace(before + t + after) == t
  {
    hide IsSpace, White, SpaceAt, SpaceBefore, TrimLeft, TrimRight;
    if t == "" {
      WhiteTrims(before, after);
    } else {
      if after != "" {
        WhiteStarts(after, "");
        assert after + "" == after;
      }
      if SpaceAt(t + after, 0) { SpaceEndsBefore(t, after, 0); }
      Assoc(before, t, after);
      TrimLeftOf(before, t + after);
      TrimRightOf(t, after);
    }
  }

  /** Trimming takes all white space off both ends, and nothing else. */
  lemma {:induction false} TrimSpaceExact(s: string, t: string)
    ensures t == TrimSpace(s) <==> Trimmed(s, t)
  {
    hide White, SpaceAt, SpaceBefore, TrimSpace;
    TrimSpaceTrims(s);
    if Trimmed(s, t) {
      var before, after :| White(before) && White(after) && s == before + t + after;
      OnlyTrimmed(before, t, after);
    }
  }

  lemma {:induction false} WhiteTrims(before: string, after: string)
    requires White(before) && White(after)
    ensures TrimSpace(before + "" + after) == ""
    decreases |before| + |after|, before == ""
  {
    hide White, IsSpace, TrimRight, LeadingSpace;
    var s := before + "" + after;
    if before != "" {
      var piece, more := WhiteFront(before);
      assert s == piece + (more + "" + after);
      LeadingSpaceOf(piece, more + "" + after);
      SpaceBytes(piece);
      assert s[|piece|..] == more + "" + after;
      WhiteTrims(more, after);
    } else if after != "" {
      assert s == after + "" + before;
      NoWhite();
      WhiteTrims(after, before);
    }
  }

  // ---------- Words ----------

  /** The words of a text, each after its gap, and the gap at the end. */
  function Weave(words: seq<string>, gaps: seq<string>): string
    requires |gaps| == |words| + 1
  {
    if words == [] then gaps[0] else gaps[0] + words[0] + Weave(words[1..], gaps[1..])
  }

  /** Words with white space before, between and after them, and some between any two. */
  ghost predicate Gaps(words: seq<string>, gaps: seq<string>) {
    && |gaps| == |words| + 1
    && (forall i :: 0 <= i < |gaps| ==> White(gaps[i]))
    && (forall i :: 0 < i < |words| ==> gaps[i] != "")
  }

  ghost predicate LaidOut(s: string, words: seq<string>) {
    && (forall i :: 0 <= i < |words| ==> Word(words[i]))
    && exists gaps :: Gaps(words, gaps) && Weave(words, gaps) == s
  }

  lemma {:induction false} WordLengthCuts(t: string)
    requires t != "" && !SpaceAt(t, 0)
    ensures Word(t[..WordLength(t)])
    ensures WordLength(t) < |t| ==> SpaceAt(t[WordLength(t)..], 0)
  {
    hide IsSpace, LeadingSpace, SpaceAt;
    LeadingSpaceExact(t);
    WordRuns(t);
    var n := WordLength(t);
    assert t == t[..n] + t[n..];
    forall i: nat | i < n ensures !SpaceAt(t[..n], i) {
      if SpaceAt(t[..n], i) { SpaceInLonger(t[..n], t[n..], i); }
    }
  }

  lemma {:induction false} SpaceLater(t: string, k: nat, i: nat)
    requires k <= i && SpaceAt(t, i)
    ensures SpaceAt(t[k..], i - k)
  {
    hide IsSpace;
    var j: nat :| i <= j <= |t| && IsSpace(t[i..j]);
    SliceAfter(t, k, i, j);
    assert IsSpace(t[k..][i - k..j - k]);
  }

  lemma {:induction false} SpaceEarlier(t: string, k: nat, i: nat)
    requires k <= |t| && SpaceAt(t[k..], i)
    ensures SpaceAt(t, i + k)
  {
    hide IsSpace;
    var j: nat :| i <= j <= |t| - k && IsSpace(t[k..][i..j]);
    SliceAfter(t, k, i + k, j + k);
    assert IsSpace(t[i + k..j + k]);
  }

  lemma {:induction false} WordRuns(t: string)
    ensures forall i: nat :: i < WordLength(t) ==> !SpaceAt(t, i)
    ensures WordLength(t) < |t| ==> SpaceAt(t[WordLength(t)..], 0)
    decreases |t|
  {
    hide IsSpace, LeadingSpace, SpaceAt;
    LeadingSpaceExact(t);
    if WordLength(t) > 0 {
      WordRuns(t[1..]);
      forall i: nat | 1 <= i < WordLength(t) ensures !SpaceAt(t, i) {
        if SpaceAt(t, i) { SpaceLater(t, 1, i); }
      }
      assert t[1..][WordLength(t) - 1..] == t[WordLength(t)..];
    } else if t != "" {
      assert t[0..] == t;
    }
  }

  lemma {:induction false} WordLengthOf(w: string, tail: string)
    requires (forall i: nat :: i < |w| ==> !SpaceAt(w, i)) && (tail == "" || SpaceAt(tail, 0))
    ensures WordLength(w + tail) == |w|
    decreases |w|
  {
    hide IsSpace, LeadingSpace, SpaceAt;
    var t := w + tail;
    LeadingSpaceExact(t);
    if w == "" {
      assert t == tail;
    } else {
      if SpaceAt(t, 0) { SpaceEndsBefore(w, tail, 0); }
      assert t[1..] == w[1..] + tail;
      forall i: nat | i < |w[1..]| ensures !SpaceAt(w[1..], i) {
        if SpaceAt(w[1..], i) { SpaceEarlier(w, 1, i); }
      }
      WordLengthOf(w[1..], tail);
    }
  }

  lemma {:induction false} FieldsLaidOut(s: string) returns (gaps: seq<string>)
    ensures Gaps(Fields(s), gaps) && Weave(Fields(s), gaps) == s
    ensures forall i :: 0 <= i < |Fields(s)| ==> Word(Fields(s)[i])
    ensures s != "" && SpaceAt(s, 0) ==> gaps[0] != ""
    decreases |s|
  {
    hide IsSpace, LeadingSpace, SpaceAt, White, Word, TrimLeft, WordLength;
    var gap := TrimLeftCuts(s);
    var t := TrimLeft(s);
    assert gap == "" ==> gap + t == t;
    if t == "" {
      gaps := [gap];
    } else {
      WordLengthCuts(t);
      var n := WordLength(t);
      var more := FieldsLaidOut(t[n..]);
      gaps := [gap] + more;
      assert Fields(s) == [t[..n]] + Fields(t[n..]);
      assert Fields(s)[1..] == Fields(t[n..]) && gaps[1..] == more;
      assert t == t[..n] + t[n..];
    }
  }

  lemma {:induction false} LaidOutFields(words: seq<string>, gaps: seq<string>)
    requires (forall i :: 0 <= i < |words| ==> Word(words[i])) && Gaps(words, gaps)
    ensures Fields(Weave(words, gaps)) == words
  {
    hide IsSpace, LeadingSpace, SpaceAt, White, TrimLeft, WordLength;
    var s := Weave(words, gaps);
    if words == [] {
      NothingStarts();
      TrimLeftOf(s, "");
      assert s + "" == s;
    } else {
      var w, tail := words[0], Weave(words[1..], gaps[1..]);
      TailStarts(words[1..], gaps[1..]);
      assert s == gaps[0] + (w + tail);
      if SpaceAt(w + tail, 0) { SpaceEndsBefore(w, tail, 0); }
      TrimLeftOf(gaps[0], w + tail);
      WordLengthOf(w, tail);
      assert (w + tail)[..|w|] == w && (w + tail)[|w|..] == tail;
      LaidOutFields(words[1..], gaps[1..]);
    }
  }

  lemma NothingStarts()
    ensures !SpaceAt("", 0)
  {}

  /** What follows a word is nothing, or white space. */
  lemma {:induction false} TailStarts(words: seq<string>, gaps: seq<string>)
    requires Gaps(words, gaps) && (words != [] ==> gaps[0] != "")
    ensures Weave(words, gaps) == "" || SpaceAt(Weave(words, gaps), 0)
  {
    hide IsSpace, SpaceAt, White;
    if gaps[0] != "" {
      if words == [] {
        WhiteStarts(gaps[0], "");
        assert gaps[0] + "" == gaps[0];
      } else {
        var rest := words[0] + Weave(words[1..], gaps[1..]);
        WhiteStarts(gaps[0], rest);
        assert gaps[0] + rest == Weave(words, gaps);
      }
    }
  }

  /** The words of a text are the only ones that, laid out with white space around and
      between them, give the text. */
  lemma {:induction false} FieldsExact(s: string, words: seq<string>)
    ensures words == Fields(s) <==> LaidOut(s, words)
  {
    hide Word, White, Weave, Fields;
    var gaps := FieldsLaidOut(s);
    if LaidOut(s, words) {
      var other :| Gaps(words, other) && Weave(words, other) == s;
      LaidOutFields(words, other);
    }
  }
}
