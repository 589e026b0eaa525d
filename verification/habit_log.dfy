/** The habit log: past reminder times kept in the preference store as one
    comma-joined string (`selectedTimesString`). Each token is a time in
    whole epoch seconds written the way Swift prints a whole `Double`
    ("1700000000.0"). */
module HabitLog {
  import opened Wrappers
  import opened Decimal

  const Separator: char := ','

  predicate CommaFree(t: string) {
    forall i :: 0 <= i < |t| ==> t[i] != Separator
  }

  /** Every field between separators, empty ones included, left to right. */
  function Fields(s: string): (r: seq<string>)
    ensures 0 < |r|
    ensures forall i :: 0 <= i < |r| ==> CommaFree(r[i])
    decreases |s|
  {
    if |s| == 0 then [""]
    else
      var f := Fields(s[1..]);
      if s[0] == Separator then [""] + f else [[s[0]] + f[0]] + f[1..]
  }

  function NonEmpty(ts: seq<string>): (r: seq<string>)
    ensures forall i :: 0 <= i < |r| ==> 0 < |r[i]|
    ensures (forall i :: 0 <= i < |ts| ==> CommaFree(ts[i])) ==>
              forall i :: 0 <= i < |r| ==> CommaFree(r[i])
  {
    if |ts| == 0 then []
    else if |ts[0]| == 0 then NonEmpty(ts[1..])
    else [ts[0]] + NonEmpty(ts[1..])
  }

  /** `s.split(separator: ",")`: the fields of `s`, empty ones omitted. */
  function Split(s: string): (r: seq<string>)
    ensures forall i :: 0 <= i < |r| ==> 0 < |r[i]| && CommaFree(r[i])
  {
    NonEmpty(Fields(s))
  }

  /** `joined(separator: ",")`. */
  function Join(ts: seq<string>): string
    decreases |ts|
  {
    if |ts| == 0 then ""
    else if |ts| == 1 then ts[0]
    else ts[0] + [Separator] + Join(ts[1..])
  }

  /** `String(t)` for a whole-second `TimeInterval`. */
  function RenderInterval(t: int): (s: string)
    ensures 0 < |s| && CommaFree(s)
  {
    IntText(t) + ".0"
  }

  /** `TimeInterval(token)`: a token with a value, or none. */
  function ParseInterval(tok: string): Option<int> {
    if 2 <= |tok| && tok[|tok| - 2..] == ".0" then ParseInt(tok[..|tok| - 2])
    else ParseInt(tok)
  }

  /** `compactMap { TimeInterval($0) }`: keep the tokens that have a value. */
  function CompactParse(ts: seq<string>): (r: seq<int>)
    ensures |r| <= |ts|
    ensures (forall j :: 0 <= j < |ts| ==> ParseInterval(ts[j]).Some?) ==> |r| == |ts|
    ensures (forall j :: 0 <= j < |ts| ==> ParseInterval(ts[j]).None?) ==> r == []
  {
    if |ts| == 0 then []
    else match ParseInterval(ts[0])
      case Some(v) => [v] + CompactParse(ts[1..])
      case None => CompactParse(ts[1..])
  }

  /** The intervals a stored log denotes (SettingView.swift lines 103 and 111). */
  function ParseLog(s: string): (r: seq<int>)
    ensures forall i :: 0 <= i < |r| ==>
              exists j :: 0 <= j < |Split(s)| && ParseInterval(Split(s)[j]) == Some(r[i])
    ensures (forall j :: 0 <= j < |Split(s)| ==> ParseInterval(Split(s)[j]).Some?) ==> |r| == |Split(s)|
  {
    CompactParseValuesFromTokens(Split(s));
    CompactParse(Split(s))
  }

  function RenderAll(xs: seq<int>): (r: seq<string>)
    ensures |r| == |xs|
    ensures forall i :: 0 <= i < |r| ==> 0 < |r[i]| && CommaFree(r[i])
  {
    if |xs| == 0 then [] else [RenderInterval(xs[0])] + RenderAll(xs[1..])
  }

  /** The log text for a sequence of intervals: its tokens are the
      intervals' renderings, and it parses back to the same sequence. */
  function RenderLog(xs: seq<int>): (r: string)
    ensures Split(r) == RenderAll(xs)
    ensures ParseLog(r) == xs
  {
    SplitJoin(RenderAll(xs));
    CompactParseRenderAll(xs);
    Join(RenderAll(xs))
  }

  /** `saveSettings`' log update: parse, append the new time, re-join.
      The stored log then denotes exactly the old entries followed by `t`. */
  function AppendToLog(log: string, t: int): (r: string)
    ensures ParseLog(r) == ParseLog(log) + [t]
    ensures r == RenderLog(ParseLog(r))
  {
    RenderLog(ParseLog(log) + [t])
  }

  // ---- lemmas ----

  lemma {:induction false} FieldsOfToken(t: string)
    requires CommaFree(t)
    ensures Fields(t) == [t]
    decreases |t|
  {
    if |t| > 0 {
      FieldsOfToken(t[1..]);
      assert [t[0]] + t[1..] == t;
    }
  }

  /** A separator splits the fields of a text into the fields of either side. */
  lemma {:induction false} FieldsConcat(a: string, b: string)
    ensures Fields(a + [Separator] + b) == Fields(a) + Fields(b)
    decreases |a|
  {
    var s := a + [Separator] + b;
    if |a| == 0 {
      assert s[1..] == b;
    } else {
      assert s[1..] == a[1..] + [Separator] + b;
      FieldsConcat(a[1..], b);
    }
  }

  lemma {:induction false} NonEmptyConcat(x: seq<string>, y: seq<string>)
    ensures NonEmpty(x + y) == NonEmpty(x) + NonEmpty(y)
    decreases |x|
  {
    if |x| == 0 {
      assert x + y == y;
    } else {
      assert (x + y)[1..] == x[1..] + y;
      NonEmptyConcat(x[1..], y);
    }
  }

  lemma {:induction false} CompactParseConcat(x: seq<string>, y: seq<string>)
    ensures CompactParse(x + y) == CompactParse(x) + CompactParse(y)
    decreases |x|
  {
    if |x| == 0 {
      assert x + y == y;
    } else {
      assert (x + y)[1..] == x[1..] + y;
      CompactParseConcat(x[1..], y);
    }
  }

  /** Splitting distributes over a separator: the tokens of `a,b` are those
      of `a` followed by those of `b`. */
  lemma SplitConcat(a: string, b: string)
    ensures Split(a + [Separator] + b) == Split(a) + Split(b)
  {
    FieldsConcat(a, b);
    NonEmptyConcat(Fields(a), Fields(b));
  }

  /** A non-empty text without separators is a single token. */
  lemma SplitOfToken(t: string)
    requires 0 < |t| && CommaFree(t)
    ensures Split(t) == [t]
  {
    FieldsOfToken(t);
    assert [t][1..] == [];
    assert NonEmpty([t]) == [t] + NonEmpty([]);
  }

  /** Joining non-empty, comma-free tokens and splitting the text gives the
      tokens back. */
  lemma {:induction false} SplitJoin(ts: seq<string>)
    requires forall i :: 0 <= i < |ts| ==> 0 < |ts[i]| && CommaFree(ts[i])
    ensures Split(Join(ts)) == ts
    decreases |ts|
  {
    if |ts| == 0 {
      assert Fields("") == [""];
    } else if |ts| == 1 {
      SplitOfToken(ts[0]);
    } else {
      SplitConcat(ts[0], Join(ts[1..]));
      SplitOfToken(ts[0]);
      SplitJoin(ts[1..]);
      assert [ts[0]] + ts[1..] == ts;
    }
  }

  /** Parsing the renderings of `xs` gives `xs`. */
  lemma {:induction false} CompactParseRenderAll(xs: seq<int>)
    ensures CompactParse(RenderAll(xs)) == xs
    decreases |xs|
  {
    if |xs| > 0 {
      assert RenderAll(xs) == [RenderInterval(xs[0])] + RenderAll(xs[1..]);
      ParseRenderInterval(xs[0]);
      CompactParseCons(RenderInterval(xs[0]), RenderAll(xs[1..]), xs[0]);
      CompactParseRenderAll(xs[1..]);
      assert [xs[0]] + xs[1..] == xs;
    }
  }

  /** A leading token with a value contributes that value first. */
  lemma CompactParseCons(t: string, ts: seq<string>, v: int)
    requires ParseInterval(t) == Some(v)
    ensures CompactParse([t] + ts) == [v] + CompactParse(ts)
  {
    assert ([t] + ts)[0] == t && ([t] + ts)[1..] == ts;
  }

  /** `compactMap` invents nothing: every value it keeps is the value of
      one of the tokens. */
  lemma {:induction false} CompactParseValuesFromTokens(ts: seq<string>)
    ensures forall i :: 0 <= i < |CompactParse(ts)| ==>
              exists j :: 0 <= j < |ts| && ParseInterval(ts[j]) == Some(CompactParse(ts)[i])
    decreases |ts|
  {
    if |ts| > 0 {
      CompactParseValuesFromTokens(ts[1..]);
      var r, rest := CompactParse(ts), CompactParse(ts[1..]);
      forall i | 0 <= i < |r|
        ensures exists j :: 0 <= j < |ts| && ParseInterval(ts[j]) == Some(r[i])
      {
        if ParseInterval(ts[0]).Some? {
          if i == 0 {
            assert ParseInterval(ts[0]) == Some(r[i]);
          } else {
            var j :| 0 <= j < |ts[1..]| && ParseInterval(ts[1..][j]) == Some(rest[i - 1]);
            assert ParseInterval(ts[j + 1]) == Some(r[i]);
          }
        } else {
          var j :| 0 <= j < |ts[1..]| && ParseInterval(ts[1..][j]) == Some(rest[i]);
          assert ParseInterval(ts[j + 1]) == Some(r[i]);
        }
      }
    } else {
      assert CompactParse(ts) == [];
    }
  }

  /** Parsing distributes over a separator: empty fields on either side add nothing. */
  lemma ParseLogConcat(a: string, b: string)
    ensures ParseLog(a + [Separator] + b) == ParseLog(a) + ParseLog(b)
  {
    SplitConcat(a, b);
    CompactParseConcat(Split(a), Split(b));
  }

  lemma ParseRenderInterval(t: int)
    ensures ParseInterval(RenderInterval(t)) == Some(t)
  {
    var s := RenderInterval(t);
    assert s[..|s| - 2] == IntText(t);
    IntTextRoundTrip(t);
  }

  /** A log holding one field denotes that field's value, if it has one. */
  lemma ParseLogOfField(tok: string)
    requires 0 < |tok| && CommaFree(tok)
    ensures ParseLog(tok) == (match ParseInterval(tok) case Some(v) => [v] case None => [])
  {
    SplitOfToken(tok);
  }

  /** A log of separators alone, however many, denotes no intervals. */
  lemma {:induction false} SeparatorsOnlyParseEmpty(n: nat)
    ensures ParseLog(seq(n, _ => Separator)) == []
  {
    if n == 0 {
      assert Fields("") == [""];
    } else {
      var rest := seq(n - 1, _ => Separator);
      assert seq(n, _ => Separator) == "" + [Separator] + rest;
      ParseLogConcat("", rest);
      SeparatorsOnlyParseEmpty(n - 1);
      assert Fields("") == [""];
    }
  }

  /** A token without a value is dropped, and the intervals on either side
      are kept in order. */
  lemma NonNumericTokenDropped(a: string, tok: string, b: string)
    requires 0 < |tok| && CommaFree(tok) && ParseInterval(tok) == None
    ensures ParseLog(a + [Separator] + tok + [Separator] + b) == ParseLog(a) + ParseLog(b)
  {
    var rest := tok + [Separator] + b;
    assert a + [Separator] + tok + [Separator] + b == a + [Separator] + rest;
    ParseLogOfField(tok);
    ParseLogConcat(tok, b);
    assert ParseLog(rest) == ParseLog(b);
    ParseLogConcat(a, rest);
  }
}
