/** The search page: movie durations rendered as hours and minutes, and the debounced
  * search, which asks the search endpoint only for queries of at least two characters.
  * The debounce timer and the HTTP reply are inputs of the methods that handle them. */
module Search {

  import opened Base
  import opened Text
  import opened Js

  const ShortQueryLength := 2

  /** JavaScript's `a % b` for a positive divisor: the remainder of division truncated
    * towards zero, so it takes the sign of `a`. */
  function JsRem(a: int, b: int): (r: int)
    requires b > 0
    ensures a >= 0 ==> 0 <= r < b
    ensures a < 0 ==> -b < r <= 0
  {
    if a >= 0 then a % b else 0 - ((0 - a) % b)
  }

  /** The quotient that goes with `JsRem`: division truncated towards zero. */
  function TruncDiv(a: int, b: int): int
    requires b > 0
  {
    if a >= 0 then a / b else 0 - ((0 - a) / b)
  }

  /** `JsRem` is the remainder of truncated division. */
  lemma JsRemIsTruncatedRemainder(a: int, b: int)
    requires b > 0
    ensures a == b * TruncDiv(a, b) + JsRem(a, b)
  {
  }

  /** `formatDuration(minutes)`: "" for an absent or zero duration; otherwise the floored
    * hours and the `%` minutes, as `"<h>j <m>m"` when the hours are positive and as
    * `"<m> Menit"` when they are not. */
  function FormatDuration(minutes: Option<int>): (s: string)
    ensures s == "" <==> minutes.None? || minutes.value == 0
  {
    if minutes.None? || minutes.value == 0 then ""
    else
      var h := minutes.value / 60;
      var m := JsRem(minutes.value, 60);
      if h > 0 then IntToString(h) + "j " + IntToString(m) + "m"
      else IntToString(m) + " Menit"
  }

  /** Reads a rendered duration back into minutes: `"<h>j <m>m"` as `60 * h + m`, and
    * `"<m> Menit"` as `m`. */
  function ReadDuration(s: string): Option<int> {
    var head := BeforeFirst(s, 'j');
    if |head| < |s| then
      if |head| + 2 <= |s| then ReadHours(StrToNumber(head), StrToNumber(BeforeFirst(s[|head| + 2..], 'm')))
      else None
    else StrToNumber(BeforeFirst(s, ' '))
  }

  /** The minutes of `<h>j <m>m` once both numbers are read; nothing when either is not a
    * number. */
  function ReadHours(h: Option<int>, m: Option<int>): Option<int> {
    if h.Some? && m.Some? then Some(60 * h.value + m.value) else None
  }

  lemma DigitsHaveNo(n: nat, c: char)
    requires !IsDigit(c)
    ensures c !in IntToString(n)
  {
  }

  /** Where `<hs>j <ms>m` splits: `hs` before the `j`, then `ms` before the following `m`. */
  lemma HoursSplit(hs: string, ms: string)
    requires 'j' !in hs && 'm' !in ms
    ensures var s := hs + "j " + ms + "m";
      && |hs| + 2 <= |s| && BeforeFirst(s, 'j') == hs && BeforeFirst(s[|hs| + 2..], 'm') == ms
  {
    var tail := [' '] + ms + ['m'];
    var s := hs + ['j'] + tail;
    assert hs + "j " + ms + "m" == s;
    BeforeFirstOfJoined(hs, 'j', tail);
    var rest := s[|hs| + 2..];
    assert rest == ms + ['m'] + [];
    BeforeFirstOfJoined(ms, 'm', []);
  }

  /** Reading `<hs>j <ms>m`: the parts before `j` and before the following `m` are read
    * as numbers. */
  lemma ReadHoursParts(hs: string, ms: string, h: int, m: int)
    requires 'j' !in hs && 'm' !in ms
    requires StrToNumber(hs) == Some(h) && StrToNumber(ms) == Some(m)
    ensures ReadDuration(hs + "j " + ms + "m") == Some(60 * h + m)
  {
    HoursSplit(hs, ms);
    ReadHoursAt(hs + "j " + ms + "m", hs, ms, h, m);
  }

  /** A string whose part before `j` reads as `h` and whose part after `j ` and before `m`
    * reads as `m` is read as `60 * h + m`. */
  lemma ReadHoursAt(s: string, hs: string, ms: string, h: int, m: int)
    requires |hs| + 2 <= |s| && BeforeFirst(s, 'j') == hs && BeforeFirst(s[|hs| + 2..], 'm') == ms
    requires StrToNumber(hs) == Some(h) && StrToNumber(ms) == Some(m)
    ensures ReadDuration(s) == Some(60 * h + m)
  {
    var head := BeforeFirst(s, 'j');
    assert head == hs;
    var rest := s[|head| + 2..];
    var mm := BeforeFirst(rest, 'm');
    assert mm == ms;
    assert ReadDuration(s) == ReadHours(StrToNumber(head), StrToNumber(mm));
  }

  lemma ReadHoursForm(h: nat, m: nat)
    ensures ReadDuration(IntToString(h) + "j " + IntToString(m) + "m") == Some(60 * h + m)
  {
    DigitsHaveNo(h, 'j');
    DigitsHaveNo(m, 'm');
    NumberOfIntToString(h);
    NumberOfIntToString(m);
    ReadHoursParts(IntToString(h), IntToString(m), h, m);
  }

  lemma ReadMinutesForm(m: nat)
    ensures ReadDuration(IntToString(m) + " Menit") == Some(m)
  {
    var ms := IntToString(m);
    var s := ms + " Menit";
    DigitsHaveNo(m, 'j');
    DigitsHaveNo(m, ' ');
    NumberOfIntToString(m);
    assert 'j' !in s by {
      forall i | 0 <= i < |s|
        ensures s[i] != 'j'
      {
        if i >= |ms| {
          assert s[i] == " Menit"[i - |ms|];
        } else {
          assert s[i] == ms[i];
        }
      }
    }
    BeforeFirstUnique(s, 'j', s);
    assert s == ms + [' '] + "Menit";
    BeforeFirstOfJoined(ms, ' ', "Menit");
  }

  /** Every positive duration renders to a string that reads back as the same minutes:
    * the hours and minutes split the duration exactly. */
  lemma FormatDurationRoundTrip(n: int)
    requires n > 0
    ensures ReadDuration(FormatDuration(Some(n))) == Some(n)
  {
    if n / 60 > 0 {
      ReadHoursForm(n / 60, n % 60);
    } else {
      ReadMinutesForm(n % 60);
    }
  }

  /** A negative duration loses its hours: the floored hours are not positive, so only the
    * truncated remainder is shown, and -90 minutes renders as -30. */
  lemma NegativeDurationExample()
    ensures FormatDuration(Some(-90)) == IntToString(-30) + " Menit"
    ensures ReadDuration(FormatDuration(Some(-90))) == Some(-30)
  {
    var ms := IntToString(-30);
    var s := FormatDuration(Some(-90));
    assert s == ms + [' '] + "Menit";
    assert ms == "-" + NatToString(30);
    assert 'j' !in s by {
      forall i | 0 <= i < |s|
        ensures s[i] != 'j'
      {
        if i >= |ms| {
          assert s[i] == " Menit"[i - |ms|];
        } else if i > 0 {
          assert s[i] == NatToString(30)[i - 1];
        }
      }
    }
    BeforeFirstUnique(s, 'j', s);
    assert ' ' !in ms by {
      forall i | 0 <= i < |ms|
        ensures ms[i] != ' '
      {
        if i > 0 {
          assert ms[i] == NatToString(30)[i - 1];
        }
      }
    }
    BeforeFirstOfJoined(ms, ' ', "Menit");
    NumberOfIntToString(-30);
  }

  /** The search endpoint's reply: a failure, or the body's `data` (`None` when falsy). */
  datatype SearchReply = SearchFailed | SearchOk(data: Option<seq<JsObject>>)

  /** The results a reply leaves on the page. */
  function ResultsOf(reply: SearchReply): (r: seq<JsObject>)
    ensures reply.SearchFailed? ==> r == []
    ensures reply.SearchOk? && reply.data.Some? ==> r == reply.data.value
    ensures reply.SearchOk? && reply.data.None? ==> r == []
  {
    match reply
    case SearchOk(Some(data)) => data
    case _ => []
  }

  class SearchPage {
    var query: string
    var debouncedQuery: string
    var results: seq<JsObject>
    var isLoading: bool

    constructor ()
      ensures query == "" && debouncedQuery == "" && results == [] && !isLoading
    {
      query, debouncedQuery, results, isLoading := "", "", [], false;
    }

    /** Typing into the search box. */
    method SetQuery(q: string)
      modifies this
      ensures query == q
      ensures debouncedQuery == old(debouncedQuery) && results == old(results) && isLoading == old(isLoading)
    {
      query := q;
    }

    /** The debounce timer firing: the query typed so far becomes the one searched. */
    method DebounceElapsed()
      modifies this
      ensures debouncedQuery == query
      ensures query == old(query) && results == old(results) && isLoading == old(isLoading)
    {
      debouncedQuery := query;
    }

    /** `fetchMovies` up to the request: a query shorter than two characters empties the
      * results and sends nothing; a longer one sets the loading flag and is sent. */
    method FetchMovies() returns (request: Option<string>)
      modifies this
      ensures |debouncedQuery| < ShortQueryLength ==>
        request == None && results == [] && isLoading == old(isLoading)
      ensures |debouncedQuery| >= ShortQueryLength ==>
        request == Some(debouncedQuery) && results == old(results) && isLoading
      ensures query == old(query) && debouncedQuery == old(debouncedQuery)
    {
      if debouncedQuery == "" || |debouncedQuery| < ShortQueryLength {
        results := [];
        request := None;
        return;
      }
      isLoading := true;
      request := Some(debouncedQuery);
    }

    /** `fetchMovies` after the reply: the results are the reply's data, or empty on a
      * failure or a missing body, and loading ends on every path. */
    method SearchReplied(reply: SearchReply)
      modifies this
      ensures results == ResultsOf(reply) && !isLoading
      ensures query == old(query) && debouncedQuery == old(debouncedQuery)
    {
      if reply.SearchOk? && reply.data.Some? {
        results := reply.data.value;
      } else {
        results := [];
      }
      isLoading := false;
    }
  }
}
