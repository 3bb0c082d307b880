/** Quoting untrusted text between markers that the text cannot forge. */
module Fencing {
  const BEGIN := "<<<BEGIN_QUOTED_AGENT_CONTENT>>>"
  const END := "<<<END_QUOTED_AGENT_CONTENT>>>"
  const ELIDED := "<<<ELIDED_MARKER>>>"

  predicate OccursAt(s: string, w: string, i: int) {
    0 <= i && i + |w| <= |s| && forall k :: 0 <= k < |w| ==> s[i + k] == w[k]
  }

  ghost predicate Contains(s: string, w: string) {
    exists i :: OccursAt(s, w, i)
  }

  /** str.replace: leftmost, non-overlapping. */
  function Replace(s: string, m: string, e: string): string
    requires m != []
    decreases |s|
  {
    if |s| < |m| then s
    else if OccursAt(s, m, 0) then e + Replace(s[|m|..], m, e)
    else [s[0]] + Replace(s[1..], m, e)
  }

  function Elide(text: string): string {
    Replace(Replace(text, BEGIN, ELIDED), END, ELIDED)
  }

  function Fence(left: string, body: string, right: string): string {
    left + "\n" + body + "\n" + right
  }

  function Quote(text: string): string {
    Fence(BEGIN, Elide(text), END)
  }

  // ---- what leftmost replacement does ----

  lemma OccursInTail(s: string, w: string, n: nat, i: int)
    requires n <= |s| && i >= n
    ensures OccursAt(s, w, i) <==> OccursAt(s[n..], w, i - n)
  {
    if OccursAt(s[n..], w, i - n) {
      forall k | 0 <= k < |w| ensures s[i + k] == w[k] {
        assert s[n..][i - n + k] == w[k];
      }
    }
  }

  /** The first occurrence is replaced and the rest after it is treated the same way. */
  lemma {:induction false} ReplaceFirst(s: string, m: string, e: string, i: nat)
    requires m != [] && OccursAt(s, m, i) && forall j :: 0 <= j < i ==> !OccursAt(s, m, j)
    ensures Replace(s, m, e) == s[..i] + e + Replace(s[i + |m|..], m, e)
    decreases i
  {
    if i == 0 {
      ReplaceNow(s, m, e);
    } else {
      NotBefore(s, m, i);
      ReplaceFirst(s[1..], m, e, i - 1);
      ReplaceLater(s, m, e, i);
    }
  }

  lemma ReplaceNow(s: string, m: string, e: string)
    requires m != [] && OccursAt(s, m, 0)
    ensures Replace(s, m, e) == s[..0] + e + Replace(s[0 + |m|..], m, e)
  {
    assert s[..0] + e == e;
  }

  lemma ReplaceLater(s: string, m: string, e: string, i: nat)
    requires m != [] && 0 < i && i + |m| <= |s| && !OccursAt(s, m, 0)
    requires Replace(s[1..], m, e) == s[1..][..i - 1] + e + Replace(s[1..][i - 1 + |m|..], m, e)
    ensures Replace(s, m, e) == s[..i] + e + Replace(s[i + |m|..], m, e)
  {
    TailSlices(s, i, i + |m|);
    Concatenation([s[0]], s[1..][..i - 1], e, Replace(s[i + |m|..], m, e));
  }

  lemma TailSlices(s: string, i: nat, j: nat)
    requires 0 < i <= j <= |s|
    ensures [s[0]] + s[1..][..i - 1] == s[..i] && s[1..][j - 1..] == s[j..]
  {
  }

  lemma Concatenation(a: string, b: string, c: string, d: string)
    ensures a + (b + c + d) == (a + b) + c + d
  {
  }

  lemma NotBefore(s: string, m: string, i: nat)
    requires s != [] && i > 0 && OccursAt(s, m, i) && forall j :: 0 <= j < i ==> !OccursAt(s, m, j)
    ensures OccursAt(s[1..], m, i - 1) && forall j :: 0 <= j < i - 1 ==> !OccursAt(s[1..], m, j)
  {
    OccursInTail(s, m, 1, i);
    forall j | 0 <= j < i - 1 ensures !OccursAt(s[1..], m, j) {
      OccursInTail(s, m, 1, j + 1);
    }
  }

  /** Without an occurrence nothing is replaced. */
  lemma {:induction false} ReplaceNothing(s: string, m: string, e: string)
    requires m != [] && !Contains(s, m)
    ensures Replace(s, m, e) == s
    decreases |s|
  {
    if |s| >= |m| {
      TailWithout(s, m, 1);
      ReplaceNothing(s[1..], m, e);
    }
  }

  // ---- why an insertion never creates a marker ----

  /** Three opening brackets, and no other ones. */
  ghost predicate Bracketed(w: string) {
    && |w| > 5 && w[0] == '<' && w[1] == '<' && w[2] == '<'
    && (forall i :: 3 <= i < |w| ==> w[i] != '<')
    && (forall i :: 0 <= i < |w| ==> w[i] != '\n')
  }

  ghost predicate Differ(v: string, w: string) {
    exists i :: 0 <= i < |v| && i < |w| && v[i] != w[i]
  }

  /** The end w[j..] of w begins s. */
  ghost predicate EndBegins(s: string, w: string, j: nat) {
    |w| - j <= |s| && forall k :: j <= k < |w| ==> s[k - j] == w[k]
  }

  lemma NotInside(w: string, e: string, rest: string, k: nat)
    requires Bracketed(w) && Bracketed(e) && Differ(w, e) && k < |e|
    ensures !OccursAt(e + rest, w, k)
  {
    var i: nat;
    if k == 0 {
      i :| 0 <= i < |w| && i < |e| && w[i] != e[i];
    } else if k < 3 {
      i := 2;
    } else {
      i := 0;
    }
    assert (e + rest)[k + i] == e[k + i] != w[i];
  }

  /** Putting e in front of a text without w leaves it without w. */
  lemma PrependKeepsOut(w: string, e: string, rest: string)
    requires Bracketed(w) && Bracketed(e) && Differ(w, e) && !Contains(rest, w)
    ensures !Contains(e + rest, w)
  {
    forall i ensures !OccursAt(e + rest, w, i) {
      if 0 <= i < |e| {
        NotInside(w, e, rest, i);
      } else if i >= |e| {
        OccursInTail(e + rest, w, |e|, i);
        assert (e + rest)[|e|..] == rest;
      }
    }
  }

  lemma NoEndAtInsertion(w: string, e: string, rest: string, j: nat)
    requires Bracketed(w) && Bracketed(e) && 1 <= j < |w|
    ensures !EndBegins(e + rest, w, j)
  {
    var k := if j < 3 then 3 else j;
    assert (e + rest)[k - j] == e[k - j] != w[k];
  }

  lemma EndStep(c: char, rest: string, w: string, j: nat)
    requires j < |w|
    ensures EndBegins([c] + rest, w, j) <==> c == w[j] && EndBegins(rest, w, j + 1)
  {
    var r := [c] + rest;
    if c == w[j] && EndBegins(rest, w, j + 1) {
      forall k | j <= k < |w| ensures r[k - j] == w[k] {
        assert k > j ==> rest[k - (j + 1)] == w[k];
      }
    }
    if EndBegins(r, w, j) {
      assert r[j - j] == w[j];
      forall k | j + 1 <= k < |w| ensures rest[k - (j + 1)] == w[k] {
        assert r[k - j] == w[k];
      }
    }
  }

  /** A proper end of w can only begin the result when it began the text. */
  lemma {:induction false} EndsAreOld(s: string, m: string, e: string, w: string, j: nat)
    requires m != [] && Bracketed(w) && Bracketed(e) && 1 <= j <= |w|
    ensures EndBegins(Replace(s, m, e), w, j) ==> EndBegins(s, w, j)
    decreases |s|
  {
    if |s| < |m| || j == |w| {
    } else if OccursAt(s, m, 0) {
      NoEndAtInsertion(w, e, Replace(s[|m|..], m, e), j);
    } else {
      EndsAreOld(s[1..], m, e, w, j + 1);
      EndStep(s[0], Replace(s[1..], m, e), w, j);
      EndStep(s[0], s[1..], w, j);
      assert [s[0]] + s[1..] == s;
    }
  }

  lemma TailWithout(s: string, w: string, n: nat)
    requires !Contains(s, w) && n <= |s|
    ensures !Contains(s[n..], w)
  {
    forall i ensures !OccursAt(s[n..], w, i) {
      if i >= 0 {
        OccursInTail(s, w, n, i + n);
      }
    }
  }

  /** One character in front of the result brings no marker, because its rest would have been in the text. */
  lemma OneMore(s: string, m: string, e: string, w: string)
    requires m != [] && Bracketed(w) && Bracketed(e) && |s| >= |m| && !OccursAt(s, m, 0)
    requires !OccursAt(s, w, 0)
    requires !Contains(Replace(s[1..], m, e), w)
    ensures !Contains(Replace(s, m, e), w)
  {
    var rest := Replace(s[1..], m, e);
    var r := [s[0]] + rest;
    EndsAreOld(s[1..], m, e, w, 1);
    forall i ensures !OccursAt(r, w, i) {
      if i > 0 {
        OccursInTail(r, w, 1, i);
        assert r[1..] == rest;
      } else if i == 0 {
        NotAtStart(s, rest, w);
      }
    }
  }

  lemma NotAtStart(s: string, rest: string, w: string)
    requires s != [] && Bracketed(w) && !OccursAt(s, w, 0)
    requires EndBegins(rest, w, 1) ==> EndBegins(s[1..], w, 1)
    ensures !OccursAt([s[0]] + rest, w, 0)
  {
    var r := [s[0]] + rest;
    if EndBegins(s[1..], w, 1) {
      assert forall k :: 1 <= k < |w| ==> s[1..][k - 1] == s[k];
      assert s[0] != w[0];
      assert r[0 + 0] != w[0];
    } else if |w| - 1 <= |rest| {
      var k :| 1 <= k < |w| && rest[k - 1] != w[k];
      assert r[0 + k] != w[k];
    }
  }

  /** Replacing m by e leaves a text without w, if w is m or was not there before. */
  lemma {:induction false} ReplaceKeepsOut(s: string, m: string, e: string, w: string)
    requires m != [] && Bracketed(w) && Bracketed(e) && Differ(w, e)
    requires w == m || !Contains(s, w)
    ensures !Contains(Replace(s, m, e), w)
    decreases |s|
  {
    if |s| < |m| {
    } else if OccursAt(s, m, 0) {
      if w != m {
        TailWithout(s, w, |m|);
      }
      ReplaceKeepsOut(s[|m|..], m, e, w);
      PrependKeepsOut(w, e, Replace(s[|m|..], m, e));
    } else {
      if w != m {
        TailWithout(s, w, 1);
      }
      ReplaceKeepsOut(s[1..], m, e, w);
      OneMore(s, m, e, w);
    }
  }

  // ---- the results ----

  lemma BeginIsBracketed()
    ensures Bracketed(BEGIN)
  {
  }

  lemma EndIsBracketed()
    ensures Bracketed(END)
  {
  }

  lemma ElidedIsBracketed()
    ensures Bracketed(ELIDED)
  {
  }

  lemma MarkersAreBracketed()
    ensures Bracketed(BEGIN) && Bracketed(END) && Bracketed(ELIDED)
    ensures Differ(BEGIN, ELIDED) && Differ(END, ELIDED) && Differ(END, BEGIN)
  {
    BeginIsBracketed();
    EndIsBracketed();
    ElidedIsBracketed();
    assert BEGIN[3] != ELIDED[3] && END[4] != ELIDED[4] && END[3] != BEGIN[3];
  }

  /** Neither marker survives, and none arises from an insertion. */
  lemma ElidedHasNoMarker(text: string)
    ensures !Contains(Elide(text), BEGIN) && !Contains(Elide(text), END)
  {
    MarkersAreBracketed();
    ReplaceKeepsOut(text, BEGIN, ELIDED, BEGIN);
    ReplaceKeepsOut(Replace(text, BEGIN, ELIDED), END, ELIDED, END);
    ReplaceKeepsOut(Replace(text, BEGIN, ELIDED), END, ELIDED, BEGIN);
  }

  /** No marker begins before e and ends in or behind it. */
  lemma NotAcross(before: string, e: string, rest: string, w: string, j: nat)
    requires Bracketed(w) && Bracketed(e) && j < |before| < j + |w|
    ensures !OccursAt(before + e + rest, w, j)
  {
    var s, k := before + e + rest, |before| - j;
    var i := if k < 3 then 3 else k;
    assert s[j + i] == e[i - k] != w[i];
  }

  /** Up to the end of before + e, with nothing of w in before, w does not begin. */
  lemma NoneUpTo(before: string, e: string, rest: string, w: string, j: nat)
    requires Bracketed(w) && Bracketed(e) && Differ(w, e) && j < |before + e|
    requires j + |w| <= |before| ==> !OccursAt(before, w, j)
    ensures !OccursAt(before + e + rest, w, j)
  {
    var s := before + e + rest;
    if j + |w| <= |before| {
      var i :| 0 <= i < |w| && before[j + i] != w[i];
      assert s[j + i] == before[j + i];
    } else if j < |before| {
      NotAcross(before, e, rest, w, j);
    } else {
      NotInside(w, e, rest, j - |before|);
      OccursInTail(s, w, |before|, j);
      assert s[|before|..] == e + rest;
    }
  }

  /** What no occurrence begins in is copied. */
  lemma {:induction false} ReplaceSkips(before: string, rest: string, m: string, e: string)
    requires m != [] && forall j :: 0 <= j < |before| ==> !OccursAt(before + rest, m, j)
    ensures Replace(before + rest, m, e) == before + Replace(rest, m, e)
  {
    if before == [] {
      assert before + rest == rest;
      assert [] + Replace(rest, m, e) == Replace(rest, m, e);
    } else {
      assert before + rest == [before[0]] + (before[1..] + rest);
      forall j | 0 <= j < |before[1..]| ensures !OccursAt(before[1..] + rest, m, j) {
        OccursInTail(before + rest, m, 1, j + 1);
        assert (before + rest)[1..] == before[1..] + rest;
      }
      ReplaceSkips(before[1..], rest, m, e);
      ReplaceSkipsOne(before[0], before[1..] + rest, m, e);
      assert [before[0]] + (before[1..] + Replace(rest, m, e)) == before + Replace(rest, m, e);
    }
  }

  lemma ReplaceSkipsOne(c: char, rest: string, m: string, e: string)
    requires m != [] && !OccursAt([c] + rest, m, 0)
    ensures Replace([c] + rest, m, e) == [c] + Replace(rest, m, e)
  {
    assert ([c] + rest)[1..] == rest;
  }

  lemma BeginComesFirst(before: string, rest: string)
    requires forall j :: 0 <= j < |before| ==> !OccursAt(before + BEGIN + rest, BEGIN, j)
    requires forall j :: 0 <= j < |before| && j + |END| <= |before| ==> !OccursAt(before, END, j)
    ensures Elide(before + BEGIN + rest) == before + ELIDED + Elide(rest)
  {
    MarkersAreBracketed();
    var s, x := before + BEGIN + rest, Replace(rest, BEGIN, ELIDED);
    MarkerStands(before, BEGIN, rest);
    ReplaceFirst(s, BEGIN, ELIDED, |before|);
    assert s[..|before|] == before && s[|before| + |BEGIN|..] == rest;
    forall j | 0 <= j < |before + ELIDED| ensures !OccursAt(before + ELIDED + x, END, j) {
      NoneUpTo(before, ELIDED, x, END, j);
    }
    ReplaceSkips(before + ELIDED, x, END, ELIDED);
  }

  lemma MarkerStands(before: string, m: string, rest: string)
    ensures OccursAt(before + m + rest, m, |before|)
  {
  }

  lemma EndComesFirst(before: string, rest: string)
    requires forall j :: 0 <= j < |before| ==> !OccursAt(before + END + rest, END, j)
    requires forall j :: 0 <= j < |before| && j + |BEGIN| <= |before| ==> !OccursAt(before, BEGIN, j)
    ensures Elide(before + END + rest) == before + ELIDED + Elide(rest)
  {
    var x := Replace(rest, BEGIN, ELIDED);
    EndIsSkipped(before, rest);
    forall j | 0 <= j < |before| ensures !OccursAt(before + END + x, END, j) {
      StillNoEnd(before, rest, x, j);
    }
    EndIsReplaced(before, x);
  }

  lemma MarkersDiffer()
    ensures Bracketed(BEGIN) && Bracketed(END) && Differ(BEGIN, END)
  {
    MarkersAreBracketed();
    assert BEGIN[3] != END[3];
  }

  lemma EndIsSkipped(before: string, rest: string)
    requires forall j :: 0 <= j < |before| && j + |BEGIN| <= |before| ==> !OccursAt(before, BEGIN, j)
    ensures Replace(before + END + rest, BEGIN, ELIDED) == before + END + Replace(rest, BEGIN, ELIDED)
  {
    MarkersDiffer();
    forall j | 0 <= j < |before + END| ensures !OccursAt(before + END + rest, BEGIN, j) {
      NoneUpTo(before, END, rest, BEGIN, j);
    }
    ReplaceSkips(before + END, rest, BEGIN, ELIDED);
  }

  lemma EndIsReplaced(before: string, x: string)
    requires forall j :: 0 <= j < |before| ==> !OccursAt(before + END + x, END, j)
    ensures Replace(before + END + x, END, ELIDED) == before + ELIDED + Replace(x, END, ELIDED)
  {
    var s := before + END + x;
    MarkerStands(before, END, x);
    ReplaceFirst(s, END, ELIDED, |before|);
    assert s[..|before|] == before && s[|before| + |END|..] == x;
  }

  lemma StillNoEnd(before: string, rest: string, x: string, j: nat)
    requires j < |before| && !OccursAt(before + END + rest, END, j)
    ensures !OccursAt(before + END + x, END, j)
  {
    MarkersAreBracketed();
    if j + |END| <= |before| {
      var i :| 0 <= i < |END| && (before + END + rest)[j + i] != END[i];
      assert (before + END + x)[j + i] == before[j + i] == (before + END + rest)[j + i];
    } else {
      NotAcross(before, END, x, END, j);
    }
  }

  lemma SplitAt(text: string, m: string, i: nat)
    requires OccursAt(text, m, i)
    ensures text == text[..i] + m + text[i + |m|..]
  {
    assert text[i..i + |m|] == m;
  }

  lemma NoneBefore(text: string, w: string, i: nat)
    requires i <= |text| && forall j :: 0 <= j < i ==> !OccursAt(text, w, j)
    ensures forall j :: 0 <= j < i && j + |w| <= i ==> !OccursAt(text[..i], w, j)
  {
    forall j | 0 <= j < i && j + |w| <= i ensures !OccursAt(text[..i], w, j) {
      assert !OccursAt(text, w, j);
      var k :| 0 <= k < |w| && text[j + k] != w[k];
      assert text[..i][j + k] == text[j + k];
    }
  }

  /** Eliding replaces the leftmost marker of either kind, keeps the text before it, and goes on behind it. */
  lemma ElideReplacesTheNext(text: string, m: string, i: nat)
    requires (m == BEGIN || m == END) && OccursAt(text, m, i)
    requires forall j :: 0 <= j < i ==> !OccursAt(text, BEGIN, j) && !OccursAt(text, END, j)
    ensures Elide(text) == text[..i] + ELIDED + Elide(text[i + |m|..])
  {
    var before, rest := text[..i], text[i + |m|..];
    SplitAt(text, m, i);
    NoneBefore(text, BEGIN, i);
    NoneBefore(text, END, i);
    if m == BEGIN {
      BeginComesFirst(before, rest);
    } else {
      EndComesFirst(before, rest);
    }
  }

  /** Text without markers is untouched; so eliding twice is eliding once. */
  lemma ElideIsExact(text: string)
    ensures Elide(text) == text <==> !Contains(text, BEGIN) && !Contains(text, END)
    ensures Elide(Elide(text)) == Elide(text)
  {
    ElidedHasNoMarker(text);
    var elided := Elide(text);
    ReplaceNothing(elided, BEGIN, ELIDED);
    ReplaceNothing(elided, END, ELIDED);
    if !Contains(text, BEGIN) && !Contains(text, END) {
      ReplaceNothing(text, BEGIN, ELIDED);
      ReplaceNothing(text, END, ELIDED);
    }
  }

  /** A marker has no newline in it. */
  lemma NoMarkerAcross(s: string, w: string, i: int, at: nat)
    requires Bracketed(w) && i <= at < i + |w| && at < |s| && s[at] == '\n'
    ensures !OccursAt(s, w, i)
  {
    if i >= 0 {
      assert s[i + (at - i)] != w[at - i];
    }
  }

  /** A marker that touches the fenced body would be a marker in it. */
  lemma NoneBetween(left: string, body: string, right: string, w: string, i: int)
    requires Bracketed(w) && !Contains(body, w)
    requires |left| - |w| < i <= |left| + 1 + |body|
    ensures !OccursAt(Fence(left, body, right), w, i)
  {
    var q, at, j := Fence(left, body, right), |left| + 1 + |body|, i - |left| - 1;
    if i <= |left| {
      NoMarkerAcross(q, w, i, |left|);
    } else if i + |w| > at {
      NoMarkerAcross(q, w, i, at);
    } else {
      assert !OccursAt(body, w, j);
      var k :| 0 <= k < |w| && body[j + k] != w[k];
      assert q[i + k] == body[j + k];
    }
  }

  lemma NoneInLeft(left: string, body: string, right: string, w: string, i: nat)
    requires Bracketed(w) && Bracketed(left) && Differ(w, left) && i < |left|
    ensures !OccursAt(Fence(left, body, right), w, i)
  {
    var rest := "\n" + body + "\n" + right;
    assert Fence(left, body, right) == left + rest;
    NotInside(w, left, rest, i);
  }

  lemma FenceShape(left: string, body: string, right: string)
    ensures var q := Fence(left, body, right);
            && |q| == |left| + 1 + |body| + 1 + |right|
            && OccursAt(q, left, 0) && OccursAt(q, right, |q| - |right|)
            && q[|left| + 1..|q| - |right| - 1] == body
  {
    var q := Fence(left, body, right);
    forall k | 0 <= k < |right| ensures q[|q| - |right| + k] == right[k] {
      assert q[|q| - |right|..] == right;
      assert q[|q| - |right|..][k] == right[k];
    }
  }

  /** Quoted text has exactly one begin marker, at its start, and exactly one end marker, at its end. */
  lemma QuotingIsUnambiguous(text: string)
    ensures forall i :: OccursAt(Quote(text), BEGIN, i) <==> i == 0
    ensures forall i :: OccursAt(Quote(text), END, i) <==> i == |Quote(text)| - |END|
    ensures Quote(text)[|BEGIN| + 1..|Quote(text)| - |END| - 1] == Elide(text)
  {
    MarkersAreBracketed();
    ElidedHasNoMarker(text);
    Unambiguous(BEGIN, Elide(text), END);
  }

  lemma OneOnTheLeft(left: string, body: string, right: string, i: int)
    requires Bracketed(left) && !Contains(body, left) && |right| < |left| && i != 0
    ensures !OccursAt(Fence(left, body, right), left, i)
  {
    if 0 < i <= |left| + 1 + |body| {
      NoneBetween(left, body, right, left, i);
    }
  }

  lemma OneOnTheRight(left: string, body: string, right: string, i: int)
    requires Bracketed(left) && Bracketed(right) && Differ(right, left) && !Contains(body, right)
    requires i != |Fence(left, body, right)| - |right|
    ensures !OccursAt(Fence(left, body, right), right, i)
  {
    if 0 <= i < |left| {
      NoneInLeft(left, body, right, right, i);
    } else if |left| <= i <= |left| + 1 + |body| {
      NoneBetween(left, body, right, right, i);
    }
  }

  lemma Unambiguous(left: string, body: string, right: string)
    requires Bracketed(left) && Bracketed(right) && Differ(right, left) && |right| < |left|
    requires !Contains(body, left) && !Contains(body, right)
    ensures var q := Fence(left, body, right);
            && (forall i :: OccursAt(q, left, i) <==> i == 0)
            && (forall i :: OccursAt(q, right, i) <==> i == |q| - |right|)
            && q[|left| + 1..|q| - |right| - 1] == body
  {
    FenceShape(left, body, right);
    var q := Fence(left, body, right);
    forall i | i != 0 ensures !OccursAt(q, left, i) {
      OneOnTheLeft(left, body, right, i);
    }
    forall i | i != |q| - |right| ensures !OccursAt(q, right, i) {
      OneOnTheRight(left, body, right, i);
    }
  }
}
