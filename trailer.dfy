/** The trailer modal's YouTube id extraction: the pattern
  * `^.*(youtu.be\/|v\/|u\/\w\/|embed\/|watch\?v=|&v=)([^#&?]*).*` matched against the
  * trailer URL, its second group accepted when it is exactly 11 characters long.
  * The greedy leading `.*` backtracks from the right, so the marker used is the
  * rightmost one that starts before the first line terminator (`.` matches no line
  * terminator); the id is the longest run after it free of `#`, `&` and `?`. */
module Trailer {

  import opened Base

  const IdLength := 11

  /** The characters `.` does not match. */
  predicate IsLineTerminator(c: char) {
    c == '\n' || c == '\r' || c == '\U{2028}' || c == '\U{2029}'
  }

  /** `\w`. */
  predicate IsWordChar(c: char) {
    ('a' <= c <= 'z') || ('A' <= c <= 'Z') || ('0' <= c <= '9') || c == '_'
  }

  /** The characters that end the id group. */
  predicate IsIdStop(c: char) {
    c == '#' || c == '&' || c == '?'
  }

  /** `s[p] == c`, with `p` in range. */
  predicate At(s: string, p: nat, c: char) {
    p < |s| && s[p] == c
  }

  /** The length of the marker alternative that matches at `p`, or 0 when none does. The
    * alternatives start with six different characters, so at most one matches. */
  function MarkerLen(s: string, p: nat): (n: nat)
    ensures n == 0 || n == 2 || n == 3 || n == 4 || n == 6 || n == 8 || n == 9
    ensures n > 0 ==> p + n <= |s|
  {
    if At(s, p, 'y') && At(s, p + 1, 'o') && At(s, p + 2, 'u') && At(s, p + 3, 't') && At(s, p + 4, 'u') &&
       p + 5 < |s| && !IsLineTerminator(s[p + 5]) && At(s, p + 6, 'b') && At(s, p + 7, 'e') && At(s, p + 8, '/')
    then 9
    else if At(s, p, 'v') && At(s, p + 1, '/') then 2
    else if At(s, p, 'u') && At(s, p + 1, '/') && p + 2 < |s| && IsWordChar(s[p + 2]) && At(s, p + 3, '/') then 4
    else if At(s, p, 'e') && At(s, p + 1, 'm') && At(s, p + 2, 'b') && At(s, p + 3, 'e') && At(s, p + 4, 'd') &&
            At(s, p + 5, '/')
    then 6
    else if At(s, p, 'w') && At(s, p + 1, 'a') && At(s, p + 2, 't') && At(s, p + 3, 'c') && At(s, p + 4, 'h') &&
            At(s, p + 5, '?') && At(s, p + 6, 'v') && At(s, p + 7, '=')
    then 8
    else if At(s, p, '&') && At(s, p + 1, 'v') && At(s, p + 2, '=') then 3
    else 0
  }

  /** The index of the first line terminator at or after `i`, or `|s|`. */
  function LineEnd(s: string, i: nat): (e: nat)
    requires i <= |s|
    ensures i <= e <= |s|
    ensures forall j :: i <= j < e ==> !IsLineTerminator(s[j])
    ensures e < |s| ==> IsLineTerminator(s[e])
    decreases |s| - i
  {
    if i == |s| || IsLineTerminator(s[i]) then i else LineEnd(s, i + 1)
  }

  /** The rightmost position at or before `p` where a marker matches. */
  function LastMarker(s: string, p: nat): (r: Option<nat>)
    requires p <= |s|
    ensures r.Some? ==> r.value <= p && MarkerLen(s, r.value) > 0
    ensures r.Some? ==> forall q :: r.value < q <= p ==> MarkerLen(s, q) == 0
    ensures r.None? ==> forall q :: 0 <= q <= p ==> MarkerLen(s, q) == 0
  {
    if MarkerLen(s, p) > 0 then Some(p)
    else if p == 0 then None
    else LastMarker(s, p - 1)
  }

  /** The end of the longest run from `i` that holds no `#`, `&` or `?`. */
  function RunEnd(s: string, i: nat): (e: nat)
    requires i <= |s|
    ensures i <= e <= |s|
    ensures forall j :: i <= j < e ==> !IsIdStop(s[j])
    ensures e < |s| ==> IsIdStop(s[e])
    decreases |s| - i
  {
    if i == |s| || IsIdStop(s[i]) then i else RunEnd(s, i + 1)
  }

  /** The second group of the match, or `None` when the pattern does not match. */
  function IdGroup(s: string): Option<string> {
    match LastMarker(s, LineEnd(s, 0))
    case None => None
    case Some(p) =>
      var start := p + MarkerLen(s, p);
      Some(s[start..RunEnd(s, start)])
  }

  /** `getYoutubeId(url)`; `None` stands for both a null argument and a null result. */
  function GetYoutubeId(url: Option<string>): Option<string> {
    if url.None? || url.value == "" then None
    else match IdGroup(url.value)
      case Some(id) => if |id| == IdLength then Some(id) else None
      case None => None
  }

  /** What a match means: a marker at `p` reachable through `.*`, and no marker further
    * right that is; the id runs from the marker's end up to the first `#`, `&`, `?`. */
  predicate MatchedAt(s: string, p: nat, id: string) {
    && p <= LineEnd(s, 0)
    && MarkerLen(s, p) > 0
    && (forall q :: p < q <= LineEnd(s, 0) ==> MarkerLen(s, q) == 0)
    && p + MarkerLen(s, p) + |id| <= |s|
    && id == s[p + MarkerLen(s, p)..p + MarkerLen(s, p) + |id|]
    && (forall j :: 0 <= j < |id| ==> !IsIdStop(id[j]))
    && (p + MarkerLen(s, p) + |id| == |s| || IsIdStop(s[p + MarkerLen(s, p) + |id|]))
  }

  /** A marker at `p` with none to its right up to `k` is the one `LastMarker` finds. */
  lemma {:induction false} LastMarkerIs(s: string, p: nat, k: nat)
    requires p <= k <= |s| && MarkerLen(s, p) > 0
    requires forall q :: p < q <= k ==> MarkerLen(s, q) == 0
    ensures LastMarker(s, k) == Some(p)
    decreases k - p
  {
    if p < k {
      assert MarkerLen(s, k) == 0;
      LastMarkerIs(s, p, k - 1);
    }
  }

  /** A run from `i` to `e` free of stops and ended by a stop or the end is the one
    * `RunEnd` finds. */
  lemma {:induction false} RunEndIs(s: string, i: nat, e: nat)
    requires i <= e <= |s|
    requires forall j :: i <= j < e ==> !IsIdStop(s[j])
    requires e == |s| || IsIdStop(s[e])
    ensures RunEnd(s, i) == e
    decreases e - i
  {
    if i < e {
      assert !IsIdStop(s[i]);
      RunEndIs(s, i + 1, e);
    }
  }

  /** Every result is an 11-character id matched after the rightmost reachable marker. */
  lemma GetYoutubeIdSound(s: string, id: string)
    requires s != "" && GetYoutubeId(Some(s)) == Some(id)
    ensures |id| == IdLength && MatchedAt(s, LastMarker(s, LineEnd(s, 0)).value, id)
  {
    var p := LastMarker(s, LineEnd(s, 0)).value;
    var start := p + MarkerLen(s, p);
    assert id == s[start..RunEnd(s, start)];
  }

  /** Every 11-character id matched after the rightmost reachable marker is the result. */
  lemma GetYoutubeIdComplete(s: string, p: nat, id: string)
    requires s != "" && |id| == IdLength && MatchedAt(s, p, id)
    ensures GetYoutubeId(Some(s)) == Some(id)
  {
    var start := p + MarkerLen(s, p);
    LastMarkerIs(s, p, LineEnd(s, 0));
    forall j | start <= j < start + |id|
      ensures !IsIdStop(s[j])
    {
      assert s[j] == id[j - start];
    }
    RunEndIs(s, start, start + |id|);
  }

  /** The extraction agrees with the meaning of the pattern, in both directions. */
  lemma GetYoutubeIdCorrect(s: string, id: string)
    requires s != ""
    ensures GetYoutubeId(Some(s)) == Some(id) <==> |id| == IdLength && exists p: nat :: MatchedAt(s, p, id)
  {
    if GetYoutubeId(Some(s)) == Some(id) {
      GetYoutubeIdSound(s, id);
    }
    if |id| == IdLength && exists p: nat :: MatchedAt(s, p, id) {
      var p: nat :| MatchedAt(s, p, id);
      GetYoutubeIdComplete(s, p, id);
    }
  }

  /** A result is 11 characters long and holds no `#`, `&` or `?`. */
  lemma GetYoutubeIdShape(url: Option<string>)
    ensures GetYoutubeId(url).Some? ==>
      |GetYoutubeId(url).value| == IdLength &&
      forall j :: 0 <= j < IdLength ==> !IsIdStop(GetYoutubeId(url).value[j])
  {
    if GetYoutubeId(url).Some? {
      var s := url.value;
      var p := LastMarker(s, LineEnd(s, 0)).value;
      var start := p + MarkerLen(s, p);
      assert GetYoutubeId(url).value == s[start..RunEnd(s, start)];
    }
  }

  /** A missing or empty URL, and a URL without any marker, give no id. */
  lemma NoMarkerNoId(url: Option<string>)
    ensures url.None? || url == Some("") ==> GetYoutubeId(url) == None
    ensures url.Some? && (forall q :: 0 <= q <= |url.value| ==> MarkerLen(url.value, q) == 0) ==>
      GetYoutubeId(url) == None
  {
  }

  /** Digits and capital letters: characters that start no marker, end no run and
    * end no line. */
  predicate PlainText(t: string) {
    forall j :: 0 <= j < |t| ==> ('0' <= t[j] <= '9' || 'A' <= t[j] <= 'Z')
  }

  lemma {:induction false} LineEndIs(s: string, i: nat)
    requires i <= |s|
    requires forall j :: i <= j < |s| ==> !IsLineTerminator(s[j])
    ensures LineEnd(s, i) == |s|
    decreases |s| - i
  {
    if i < |s| {
      LineEndIs(s, i + 1);
    }
  }

  /** A `/v/` link yields its id. */
  lemma VPathExample(id: string)
    requires |id| == IdLength && PlainText(id)
    ensures GetYoutubeId(Some("v/" + id)) == Some(id)
  {
    var s := "v/" + id;
    forall j | 2 <= j < |s|
      ensures s[j] == id[j - 2]
    {
    }
    LineEndIs(s, 0);
    forall q | 0 < q <= |s|
      ensures MarkerLen(s, q) == 0
    {
    }
    assert s[0] == 'v' && s[1] == '/';
    assert MarkerLen(s, 0) == 2;
    LastMarkerIs(s, 0, |s|);
    RunEndIs(s, 2, |s|);
    assert s[2..|s|] == id;
    assert IdGroup(s) == Some(id);
  }

  /** Only the rightmost marker counts: the 11-character id after `v/` is lost when a
    * later `&v=` is followed by a run of another length. */
  lemma RightmostMarkerWins(id: string, tail: string)
    requires |id| == IdLength && PlainText(id) && PlainText(tail) && |tail| != IdLength
    ensures GetYoutubeId(Some("v/" + id + "&v=" + tail)) == None
  {
    var s := "v/" + id + "&v=" + tail;
    var m := 2 + |id|;
    forall j | 2 <= j < m
      ensures s[j] == id[j - 2]
    {
    }
    forall j | m + 3 <= j < |s|
      ensures s[j] == tail[j - m - 3]
    {
    }
    assert s[m] == '&' && s[m + 1] == 'v' && s[m + 2] == '=';
    LineEndIs(s, 0);
    forall q | m < q <= |s|
      ensures MarkerLen(s, q) == 0
    {
    }
    LastMarkerIs(s, m, |s|);
    RunEndIs(s, m + 3, |s|);
  }
}
