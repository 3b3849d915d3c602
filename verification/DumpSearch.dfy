/**
 Where the search for values goes in any printed row, NULLs, quotes and key text inside values
 included: which rows read back, and for which the search does not end.
 */
module DumpSearch {
  import opened Options
  import opened DumpText

  // ---------------------------------------------------------------------------
  // The quotes of a row
  // ---------------------------------------------------------------------------

  /** Position `y` lies in the printed text of field `c`, its two quotes included. */
  predicate Within(table: string, fs: seq<Field>, c: nat, y: int) {
    c < |fs| && fs[c].Text? && StartAt(table, fs, c) - 1 <= y <= StartAt(table, fs, c) + |TextAt(fs, c)|
  }

  lemma HeadQuoteFree(table: string)
    requires QUOTE !in table
    ensures QUOTE !in Head(table) && |Head(table)| >= 23
  {
    assert QUOTE !in INSERT_INTO && QUOTE !in VALUES;
  }

  lemma LastPrinted(table: string, fs: seq<Field>, m: nat)
    requires 0 < m <= |fs|
    ensures var a, b := Head(table) + Joined(fs[..m - 1]), Separator(m - 1);
            && Head(table) + Joined(fs[..m]) == a + b + Printed(fs[m - 1])
            && StartAt(table, fs, m - 1) == |a| + |b| + 1
            && QUOTE !in b
  {
    hide Joined, Head, Printed;
    JoinedStep(fs, m - 1);
    assert QUOTE !in Separator(m - 1);
    hide Separator;
    StartIs(table, fs, m - 1);
  }

  lemma StartIs(table: string, fs: seq<Field>, k: nat)
    requires k < |fs|
    ensures StartAt(table, fs, k) == |Head(table) + Joined(fs[..k])| + |Separator(k)| + 1
  {
    hide Joined, Head, Separator;
  }

  lemma PrintedQuotes(f: Field)
    ensures f.Null? ==> QUOTE !in Printed(f) && |Printed(f)| == 4
    ensures f.Text? ==> |Printed(f)| == |f.text| + 2
  {
  }

  lemma {:induction false} QuoteInPrefix(table: string, fs: seq<Field>, m: nat, y: nat) returns (c: nat)
    requires QUOTE !in table && m <= |fs|
    requires y < |Head(table) + Joined(fs[..m])| && (Head(table) + Joined(fs[..m]))[y] == QUOTE
    ensures Within(table, fs, c, y)
    decreases m
  {
    hide Head, Joined, Separator, Printed, StartAt;
    if m == 0 {
      HeadQuoteFree(table);
      NothingJoined(fs);
      assert false;
    } else {
      LastPrinted(table, fs, m);
      PrintedQuotes(fs[m - 1]);
      var a, b, p := Head(table) + Joined(fs[..m - 1]), Separator(m - 1), Printed(fs[m - 1]);
      if y < |a| {
        c := QuoteInPrefix(table, fs, m - 1, y);
      } else {
        c := m - 1;
        var z := y - |a|;
        assert (b + p)[z] == QUOTE;
        assert forall k :: 0 <= k < |b| ==> b[k] != QUOTE;
        assert p[z - |b|] == QUOTE;
      }
    }
  }

  /** Every quote of a row belongs to the printed text of some field. */
  lemma QuoteInField(table: string, fs: seq<Field>, y: nat) returns (c: nat)
    requires QUOTE !in table && y < |Row(table, fs)| && Row(table, fs)[y] == QUOTE
    ensures Within(table, fs, c, y)
  {
    hide Head, Joined, Within;
    var a := Head(table) + Joined(fs[..|fs|]);
    assert fs[..|fs|] == fs;
    assert Row(table, fs) == a + ");";
    assert y < |a|;
    c := QuoteInPrefix(table, fs, |fs|, y);
  }

  /** What stands around a text: an opening quote behind a blank, a closing quote before a comma or bracket. */
  lemma FieldAround(table: string, fs: seq<Field>, c: nat)
    requires c < |fs| && fs[c].Text?
    ensures var str, s, t := Row(table, fs), StartAt(table, fs, c), TextAt(fs, c);
            && 1 <= s && s + |t| + 1 < |str| && str[s..s + |t|] == t
            && str[s - 1] == QUOTE && str[s + |t|] == QUOTE && str[s + |t| + 1] != QUOTE
            && (0 < c ==> 2 <= s && str[s - 2] == ' ')
  {
    RowSplit(table, fs, c);
    var b, t, d := Before(table, fs, c), fs[c].text, [QUOTE] + Behind(fs, c);
    BehindStarts(fs, c);
    BeforeEnds(table, fs, c);
    hide Before, Behind, Row;
    assert Row(table, fs)[|b|..|b| + |t|] == t;
    assert Row(table, fs)[|b| + |t|] == d[0];
    assert Row(table, fs)[|b| + |t| + 1] == d[1];
  }

  lemma BehindStarts(fs: seq<Field>, c: nat)
    requires c < |fs|
    ensures Behind(fs, c) != [] && Behind(fs, c)[0] != QUOTE
  {
    hide Printed;
    if c + 1 < |fs| {
      assert Behind(fs, c)[0] == Separator(c + 1)[0];
    }
  }

  lemma BeforeEnds(table: string, fs: seq<Field>, c: nat)
    requires c < |fs|
    ensures var b := Before(table, fs, c); 0 < c ==> 2 <= |b| && b[|b| - 2] == ' '
  {
    hide Head, Joined;
    if 0 < c {
      var b := Before(table, fs, c);
      assert b == (Head(table) + Joined(fs[..c])) + ", '";
    }
  }

  /** How far apart the starts of neighbouring fields are. */
  lemma NextStart(table: string, fs: seq<Field>, c: nat)
    requires c + 1 < |fs|
    ensures StartAt(table, fs, c + 1) == StartAt(table, fs, c) + |Printed(fs[c])| + 2
  {
    hide Joined, Head, Printed;
    JoinedStep(fs, c);
  }

  lemma {:induction false} StartsApart(table: string, fs: seq<Field>, c: nat, d: nat)
    requires c < d < |fs|
    ensures StartAt(table, fs, d) >= StartAt(table, fs, c) + |Printed(fs[c])| + 2
    decreases d
  {
    hide StartAt, Printed;
    NextStart(table, fs, d - 1);
    if c < d - 1 {
      StartsApart(table, fs, c, d - 1);
    }
  }

  /** Between the text of field `c` and that of `d` there is no quote when all fields between them are NULL. */
  lemma NoQuoteBetween(table: string, fs: seq<Field>, c: nat, d: nat, y: nat)
    requires QUOTE !in table && c < d < |fs| && fs[c].Text? && fs[d].Text?
    requires forall k :: c < k < d ==> fs[k].Null?
    requires StartAt(table, fs, c) + |TextAt(fs, c)| < y < StartAt(table, fs, d) - 1
    requires y < |Row(table, fs)|
    ensures Row(table, fs)[y] != QUOTE
  {
    hide StartAt, Row, Printed;
    if Row(table, fs)[y] == QUOTE {
      var k := QuoteInField(table, fs, y);
      PrintedQuotes(fs[k]);
      PrintedQuotes(fs[d]);
      if k < c {
        StartsApart(table, fs, k, c);
      } else if d < k {
        StartsApart(table, fs, d, k);
      }
    }
  }

  // ---------------------------------------------------------------------------
  // The key text of a row
  // ---------------------------------------------------------------------------

  lemma KeyTextIs()
    ensures |FIRST_VALUE| == 9 && FIRST_VALUE[7] == '(' && FIRST_VALUE[8] == QUOTE
    ensures forall k :: 0 <= k < 8 ==> FIRST_VALUE[k] != QUOTE
  {
  }

  lemma KeyChars(str: string, x: nat)
    requires OccursAt(str, FIRST_VALUE, x)
    ensures x + 9 <= |str| && str[x + 7] == '(' && str[x + 8] == QUOTE
    ensures forall y :: x <= y < x + 8 ==> str[y] != QUOTE
  {
    KeyTextIs();
    forall k | 0 <= k < 9
      ensures str[x + k] == FIRST_VALUE[k]
    {
      assert str[x..x + 9][k] == str[x + k];
    }
    assert forall y :: x <= y < x + 8 ==> str[y] == FIRST_VALUE[y - x];
  }

  lemma TextChars(str: string, s: nat, t: string)
    requires s + |t| < |str| && str[s..s + |t|] == t && str[s + |t|] == QUOTE
    ensures forall k :: 0 <= k <= |t| ==> str[s + k] == (t + [QUOTE])[k]
  {
    forall k | 0 <= k < |t|
      ensures str[s + k] == t[k]
    {
      assert str[s..s + |t|][k] == str[s + k];
    }
  }

  /** Key text whose end lies in a text or on its closing quote, and whose start does not lie before it. */
  lemma KeyInText(str: string, s: nat, t: string, x: nat)
    requires s + |t| < |str| && str[s..s + |t|] == t && str[s + |t|] == QUOTE
    requires OccursAt(str, FIRST_VALUE, x) && s <= x && x + 8 <= s + |t|
    ensures OccursAt(t + [QUOTE], FIRST_VALUE, x - s)
  {
    KeyTextIs();
    var u := t + [QUOTE];
    var o := x - s;
    TextChars(str, s, t);
    forall k | 0 <= k < 9
      ensures u[o + k] == FIRST_VALUE[k]
    {
      assert str[x..x + 9][k] == str[x + k];
    }
    assert u[o..o + 9] == FIRST_VALUE;
  }

  /** Behind a NULL, key text can only stand inside a value, its closing quote included. */
  lemma KeyInField(table: string, fs: seq<Field>, x: nat) returns (c: nat)
    requires QUOTE !in table && 0 < |fs| && fs[0].Null? && OccursAt(Row(table, fs), FIRST_VALUE, x)
    ensures 0 < c < |fs| && fs[c].Text? && StartAt(table, fs, c) <= x
    ensures OccursAt(fs[c].text + [QUOTE], FIRST_VALUE, x - StartAt(table, fs, c))
  {
    hide StartAt, Row, OccursAt;
    var str := Row(table, fs);
    KeyChars(str, x);
    c := QuoteInField(table, fs, x + 8);
    FieldAround(table, fs, c);
    var s := StartAt(table, fs, c);
    assert str[s - 1] == QUOTE && str[s - 2] == ' ';
    KeyInText(str, s, fs[c].text, x);
  }

  /** The first key text from field `k` on: the field and the place in it. */
  function KeyField(fs: seq<Field>, k: nat): (r: Option<(nat, nat)>)
    ensures r.Some? ==> k <= r.value.0 < |fs| && fs[r.value.0].Text?
                        && IndexOfText(fs[r.value.0].text + [QUOTE], FIRST_VALUE, 0) == Some(r.value.1)
    decreases |fs| - k
  {
    if k >= |fs| then None
    else
      var o := if fs[k].Text? then IndexOfText(fs[k].text + [QUOTE], FIRST_VALUE, 0) else None;
      if o.Some? then Some((k, o.value)) else KeyField(fs, k + 1)
  }

  lemma {:induction false} IndexOfTextBefore(s: string, p: string, i: nat, j: nat)
    requires i <= j && OccursAt(s, p, j)
    ensures IndexOfText(s, p, i).Some? && IndexOfText(s, p, i).value <= j
    decreases j - i
  {
    if i < j {
      IndexOfTextBefore(s, p, i + 1, j);
    }
  }

  lemma {:induction false} KeyFieldBefore(fs: seq<Field>, k: nat, c: nat, o: nat)
    requires k <= c < |fs| && fs[c].Text? && OccursAt(fs[c].text + [QUOTE], FIRST_VALUE, o)
    ensures var r := KeyField(fs, k);
            r.Some? && r.value.0 <= c && (r.value.0 == c ==> r.value.1 <= o)
    decreases c - k
  {
    hide IndexOfText, OccursAt;
    if k == c {
      IndexOfTextBefore(fs[c].text + [QUOTE], FIRST_VALUE, 0, o);
    } else {
      KeyFieldBefore(fs, k + 1, c, o);
    }
  }

  lemma KeyFieldOccurs(table: string, fs: seq<Field>, c: nat, o: nat)
    requires c < |fs| && fs[c].Text? && OccursAt(fs[c].text + [QUOTE], FIRST_VALUE, o)
    ensures OccursAt(Row(table, fs), FIRST_VALUE, StartAt(table, fs, c) + o)
  {
    hide Row, StartAt;
    FieldAround(table, fs, c);
    var str, s, t := Row(table, fs), StartAt(table, fs, c), fs[c].text;
    TextChars(str, s, t);
    var u := t + [QUOTE];
    assert |FIRST_VALUE| == 9;
    forall k | 0 <= k < 9
      ensures str[s + o + k] == FIRST_VALUE[k]
    {
      assert u[o..o + 9][k] == u[o + k];
    }
    assert str[s + o..s + o + 9] == FIRST_VALUE;
  }

  /** Where the search for the first value finds its key text in a row that starts with a NULL. */
  lemma KeyTextOfNullRow(table: string, fs: seq<Field>)
    requires QUOTE !in table && 0 < |fs| && fs[0].Null?
    ensures var r := KeyField(fs, 1);
            IndexOfText(Row(table, fs), FIRST_VALUE, 0) ==
            if r.Some? then Some(StartAt(table, fs, r.value.0) + r.value.1) else None
  {
    hide Row, StartAt, IndexOfText, KeyField, OccursAt;
    var str, r := Row(table, fs), KeyField(fs, 1);
    if r.Some? {
      var (c, o) := r.value;
      KeyFieldOccurs(table, fs, c, o);
      IndexOfTextBefore(str, FIRST_VALUE, 0, StartAt(table, fs, c) + o);
    }
    var q := IndexOfText(str, FIRST_VALUE, 0);
    if q.Some? {
      var d := KeyInField(table, fs, q.value);
      KeyFieldBefore(fs, 1, d, q.value - StartAt(table, fs, d));
      var (c, o) := r.value;
      PrintedQuotes(fs[c]);
      if c < d {
        StartsApart(table, fs, c, d);
        KeyFits(fs[c].text, o);
      }
    }
  }

  lemma KeyFits(t: string, o: nat)
    requires OccursAt(t + [QUOTE], FIRST_VALUE, o)
    ensures o + 8 <= |t|
  {
    KeyTextIs();
  }

  // ---------------------------------------------------------------------------
  // When the search does not end
  // ---------------------------------------------------------------------------

  /** The first quote of the text, its closing one included, follows a backslash. */
  predicate FirstQuoteEscaped(t: string) {
    var f := IndexOf(t + [QUOTE], QUOTE, 0);
    f.Some? && 0 < f.value && (t + [QUOTE])[f.value - 1] == BACKSLASH
  }

  /** The text in which the search for the first value looks for a quote, if it lands in a value. */
  function SearchedText(fs: seq<Field>): (t: Option<string>)
  {
    if fs == [] then None
    else if fs[0].Text? then Some(fs[0].text)
    else
      var r := KeyField(fs, 1);
      if r.Some? && r.value.1 + 9 <= |fs[r.value.0].text| then Some(fs[r.value.0].text[r.value.1 + 9..]) else None
  }

  /** Later values never make the search endless. */
  lemma {:induction false} EndlessAtFirst(str: string, n: int)
    ensures NthValue(str, n) == Endless <==> FirstValue(str) == Endless
    decreases n
  {
    hide FirstValue, NextValue;
    if n > 1 {
      EndlessAtFirst(str, n - 1);
    }
  }

  /** A search that starts at a text stops at the first quote of that text. */
  lemma StopInText(str: string, s: nat, t: string)
    requires 1 <= s && s + |t| < |str| && str[s..s + |t|] == t && str[s + |t|] == QUOTE && str[s - 1] == QUOTE
    ensures var e := IndexOf(str, QUOTE, s);
            && e.Some? && s <= e.value <= s + |t|
            && (str[e.value - 1] == BACKSLASH <==> FirstQuoteEscaped(t))
  {
    var u := t + [QUOTE];
    TextChars(str, s, t);
    IndexOfFirst(u, QUOTE, 0);
    assert u[|t|] == QUOTE;
    var f := IndexOf(u, QUOTE, 0);
    hide IndexOf;
    forall j | s <= j < s + f.value
      ensures str[j] != QUOTE
    {
      assert str[j] == u[j - s];
    }
    assert str[s + f.value] == u[f.value];
    IndexOfIs(str, QUOTE, s, s + f.value);
  }

  lemma FirstValueIs(str: string, s: nat)
    requires IndexOfText(str, FIRST_VALUE, 0) == if 9 <= s then Some(s - 9) else None
    requires 8 <= s
    ensures var e := IndexOf(str, QUOTE, s);
            FirstValue(str) == if e.None? then NotFound
                               else if str[e.value - 1] == BACKSLASH then Endless
                               else Span(s, e.value)
  {
  }

  /** Where nothing but NULLs lies before it, the next quote is the opening quote of a text behind a blank. */
  lemma NextQuoteOpens(table: string, fs: seq<Field>, s: nat)
    requires QUOTE !in table && s < |Row(table, fs)| && 0 < |fs| && fs[0].Null?
    requires forall c :: 0 <= c < |fs| && fs[c].Text? ==>
               StartAt(table, fs, c) + |TextAt(fs, c)| < s || s < StartAt(table, fs, c) - 1
    ensures var e := IndexOf(Row(table, fs), QUOTE, s);
            e.Some? ==> s < e.value && Row(table, fs)[e.value - 1] == ' '
    ensures IndexOf(Row(table, fs), QUOTE, s).None? ==>
              forall c :: 0 <= c < |fs| && fs[c].Text? ==> StartAt(table, fs, c) + |TextAt(fs, c)| < s
  {
    hide Row, StartAt;
    var str := Row(table, fs);
    var e := IndexOf(str, QUOTE, s);
    IndexOfFirst(str, QUOTE, s);
    hide IndexOf;
    if e.Some? {
      var c := QuoteInField(table, fs, e.value);
      FieldAround(table, fs, c);
      assert StartAt(table, fs, c) - 1 == e.value;
    } else {
      forall c | 0 <= c < |fs| && fs[c].Text?
        ensures StartAt(table, fs, c) + |TextAt(fs, c)| < s
      {
        FieldAround(table, fs, c);
      }
    }
  }

  lemma RowLongerThanHead(table: string, fs: seq<Field>)
    requires QUOTE !in table
    ensures 23 < |Row(table, fs)|
    ensures forall c :: 0 <= c < |fs| ==> 23 < StartAt(table, fs, c)
  {
    HeadQuoteFree(table);
    hide Head, Joined;
  }

  /** The place right behind the closing quote of field `c` lies in no other field either. */
  lemma BehindField(table: string, fs: seq<Field>, c: nat)
    requires c < |fs| && fs[c].Text?
    ensures forall d :: 0 <= d < |fs| && fs[d].Text? ==>
              StartAt(table, fs, d) + |TextAt(fs, d)| < StartAt(table, fs, c) + |TextAt(fs, c)| + 1 ||
              StartAt(table, fs, c) + |TextAt(fs, c)| + 1 < StartAt(table, fs, d) - 1
  {
    hide StartAt, Printed;
    PrintedQuotes(fs[c]);
    forall d | 0 <= d < |fs| && fs[d].Text?
      ensures StartAt(table, fs, d) + |TextAt(fs, d)| < StartAt(table, fs, c) + |TextAt(fs, c)| + 1 ||
              StartAt(table, fs, c) + |TextAt(fs, c)| + 1 < StartAt(table, fs, d) - 1
    {
      PrintedQuotes(fs[d]);
      if d < c {
        StartsApart(table, fs, d, c);
      } else if c < d {
        StartsApart(table, fs, c, d);
      }
    }
  }

  /** Key text that no text holds entirely ends with the closing quote of a value. */
  lemma KeyEndsField(fs: seq<Field>)
    requires 0 < |fs| && fs[0].Null? && SearchedText(fs).None? && KeyField(fs, 1).Some?
    ensures var (c, o) := KeyField(fs, 1).value; fs[c].Text? && o + 8 == |TextAt(fs, c)|
  {
    hide IndexOfText, KeyField;
    var (c, o) := KeyField(fs, 1).value;
    KeyFits(fs[c].text, o);
  }

  /** Where the search starts from in a row that starts with a NULL and has no key text inside a value. */
  lemma NullRowStart(table: string, fs: seq<Field>) returns (s: nat)
    requires QUOTE !in table && 0 < |fs| && fs[0].Null? && SearchedText(fs).None?
    ensures 8 <= s < |Row(table, fs)|
    ensures IndexOfText(Row(table, fs), FIRST_VALUE, 0) == if 9 <= s then Some(s - 9) else None
    ensures KeyField(fs, 1).None? ==> s == 8 && forall c :: 0 <= c < |fs| ==> s < StartAt(table, fs, c) - 1
    ensures forall d :: 0 <= d < |fs| && fs[d].Text? ==>
              StartAt(table, fs, d) + |TextAt(fs, d)| < s || s < StartAt(table, fs, d) - 1
  {
    hide Row, StartAt, IndexOfText, KeyField, TextAt, SearchedText;
    KeyTextOfNullRow(table, fs);
    RowLongerThanHead(table, fs);
    s := 8;
    if KeyField(fs, 1).Some? {
      KeyEndsField(fs);
      var (c, o) := KeyField(fs, 1).value;
      FieldAround(table, fs, c);
      BehindField(table, fs, c);
      s := StartAt(table, fs, c) + |TextAt(fs, c)| + 1;
    }
  }

  /** The search in a row that starts with a NULL and whose key text, if any, ends a value. */
  lemma NullRowSearch(table: string, fs: seq<Field>)
    requires QUOTE !in table && 0 < |fs| && fs[0].Null? && SearchedText(fs).None?
    ensures var v, r := FirstValue(Row(table, fs)), KeyField(fs, 1);
            && (v.Span? ==> v.s < v.e) && !v.Endless?
            && (v == NotFound && r.None? ==> forall c :: 0 <= c < |fs| ==> fs[c].Null?)
  {
    hide Row, StartAt, IndexOf, IndexOfText, FirstValue, KeyField, TextAt, SearchedText;
    var s := NullRowStart(table, fs);
    FirstValueIs(Row(table, fs), s);
    NextQuoteOpens(table, fs, s);
  }

  /**
   Exactly when the search for a value does not end: the search for the first value lands in a
   text whose first quote follows a backslash.
   */
  lemma EndlessIff(table: string, fs: seq<Field>, n: int)
    requires QUOTE !in table
    ensures NthValue(Row(table, fs), n) == Endless <==>
            SearchedText(fs).Some? && FirstQuoteEscaped(SearchedText(fs).value)
  {
    hide Row, StartAt, NthValue, FirstValue, IndexOf, IndexOfText, FirstQuoteEscaped, KeyField;
    var str := Row(table, fs);
    EndlessAtFirst(str, n);
    if fs == [] {
      NoValues(table);
      EndlessAtFirst(str, 1);
    } else if fs[0].Text? {
      KeyTextFound(table, fs);
      StartAtZero(table, fs);
      FieldAround(table, fs, 0);
      StopInText(str, StartAt(table, fs, 0), fs[0].text);
      FirstValueIs(str, StartAt(table, fs, 0));
    } else if SearchedText(fs).None? {
      NullRowSearch(table, fs);
    } else {
      KeyTextOfNullRow(table, fs);
      SearchBehindKey(table, fs);
    }
  }

  /** The text behind the key text inside of a text. */
  lemma BehindKey(str: string, p: nat, t: string, o: nat)
    requires p + |t| < |str| && str[p..p + |t|] == t && o + 9 <= |t| && OccursAt(t + [QUOTE], FIRST_VALUE, o)
    ensures str[p + o + 8] == QUOTE
    ensures str[p + o + 9..p + |t|] == t[o + 9..]
  {
    KeyChars(t + [QUOTE], o);
    assert str[p + o + 8] == str[p..p + |t|][o + 8] == t[o + 8];
    assert str[p + o + 9..p + |t|] == str[p..p + |t|][o + 9..];
  }

  lemma SearchBehindKey(table: string, fs: seq<Field>)
    requires QUOTE !in table && 0 < |fs| && fs[0].Null? && SearchedText(fs).Some?
    requires IndexOfText(Row(table, fs), FIRST_VALUE, 0) ==
             Some(StartAt(table, fs, KeyField(fs, 1).value.0) + KeyField(fs, 1).value.1)
    ensures FirstValue(Row(table, fs)) == Endless <==> FirstQuoteEscaped(SearchedText(fs).value)
  {
    hide Row, StartAt, FirstValue, IndexOf, IndexOfText, FirstQuoteEscaped, KeyField;
    KeyTextIs();
    var str := Row(table, fs);
    var (c, o) := KeyField(fs, 1).value;
    var t, p := fs[c].text, StartAt(table, fs, c);
    FieldAround(table, fs, c);
    var s := p + o + 9;
    BehindKey(str, p, t, o);
    StopInText(str, s, t[o + 9..]);
    FirstValueIs(str, s);
  }

  /** An escaped quote in the first value. */
  lemma EscapedFirstValueIsEndless(n: int)
    ensures NthValue(Row("t", [Text("\\'")]), n) == Endless
    ensures Row("t", [Text("\\'")]) == "INSERT INTO `t` VALUES ('\\'');"
  {
    hide *;
    EscapedRow();
    EscapedText();
    EndlessIff("t", [Text("\\'")], n);
  }

  lemma EscapedText()
    ensures QUOTE !in "t" && SearchedText([Text("\\'")]) == Some("\\'") && FirstQuoteEscaped("\\'")
  {
    hide IndexOfText;
    IndexOfIs("\\'" + [QUOTE], QUOTE, 0, 1);
    hide IndexOf;
  }

  lemma EscapedRow()
    ensures Row("t", [Text("\\'")]) == "INSERT INTO `t` VALUES ('\\'');"
  {
    OneJoined(Text("\\'"));
    hide Joined;
    assert Printed(Text("\\'")) == "'\\''";
    assert Head("t") == "INSERT INTO `t` VALUES (";
  }

  lemma OneJoined(f: Field)
    ensures Joined([f]) == Printed(f)
  {
    hide Printed;
    NothingJoined([f]);
    JoinedStep([f], 0);
    assert [f][..1] == [f];
  }

  /** In a row that starts with a NULL and holds no key text inside a value, every search ends. */
  lemma NullRowEnds(table: string, fs: seq<Field>, n: int)
    requires QUOTE !in table && 0 < |fs| && fs[0].Null?
    requires forall c, o: nat :: 0 <= c < |fs| && fs[c].Text? ==> !OccursAt(fs[c].text, FIRST_VALUE, o)
    ensures NthValue(Row(table, fs), n) != Endless
  {
    hide Row, NthValue, IndexOfText, KeyField;
    EndlessIff(table, fs, n);
    if SearchedText(fs).Some? {
      KeyInsideText(fs);
    }
  }

  lemma KeyInsideText(fs: seq<Field>)
    requires 0 < |fs| && fs[0].Null? && SearchedText(fs).Some?
    ensures exists c, o: nat :: 0 <= c < |fs| && fs[c].Text? && OccursAt(fs[c].text, FIRST_VALUE, o)
  {
    hide IndexOfText, KeyField;
    KeyTextIs();
    var (c, o) := KeyField(fs, 1).value;
    assert fs[c].text[o..o + 9] == (fs[c].text + [QUOTE])[o..o + 9];
    assert OccursAt(fs[c].text, FIRST_VALUE, o);
  }

  lemma KeyEndsPlainText(t: string, o: nat)
    requires OccursAt(t + [QUOTE], FIRST_VALUE, o)
    ensures o + 9 <= |t| ==> QUOTE in t
  {
    KeyChars(t + [QUOTE], o);
    assert o + 9 <= |t| ==> t[o + 8] == (t + [QUOTE])[o + 8];
  }

  // ---------------------------------------------------------------------------
  // Which rows read back
  // ---------------------------------------------------------------------------

  predicate AllNullFrom(fs: seq<Field>, k: nat) {
    forall i :: k <= i < |fs| ==> fs[i].Null?
  }

  /** Every value reads back, a NULL as the empty text. */
  predicate ReadsBack(table: string, fs: seq<Field>) {
    forall n :: 1 <= n <= |fs| ==> GetNth(Row(table, fs), n) == Some(TextAt(fs, n - 1))
  }

  /** Behind the last text nothing is found. */
  lemma NothingBehindTexts(table: string, fs: seq<Field>, k: nat, n: nat)
    requires QUOTE !in table && PlainUpTo(fs, k) && AllNullFrom(fs, k) && k < n <= |fs|
    ensures NthValue(Row(table, fs), n) == NotFound
  {
    hide Row, NthValue, StartAt, FirstValue, KeyField, Plain;
    if k == 0 {
      assert KeyField(fs, 1).None? && SearchedText(fs).None?;
      NullRowSearch(table, fs);
      NoTextNoValue(table, fs);
      OneIsFirst(Row(table, fs));
      MissingValue(Row(table, fs), 1, n);
    } else {
      PlainFindable(fs, k);
      ValueAt(table, fs, k);
      var s, t := StartAt(table, fs, k - 1), TextAt(fs, k - 1);
      var e := s + |t|;
      forall y | e < y < |Row(table, fs)|
        ensures Row(table, fs)[y] != QUOTE
      {
        NoQuoteBehind(table, fs, k, y);
      }
      IndexOfNone(Row(table, fs), QUOTE, e + 4);
      OneMore(Row(table, fs), k);
      MissingValue(Row(table, fs), k + 1, n);
    }
  }

  lemma OneIsFirst(str: string)
    ensures NthValue(str, 1) == FirstValue(str)
  {
  }

  lemma OneMore(str: string, k: nat)
    requires 1 <= k && NthValue(str, k).Span? && IndexOf(str, QUOTE, NthValue(str, k).e + 4).None?
    ensures NthValue(str, k + 1) == NotFound
  {
  }

  lemma NoQuoteBehind(table: string, fs: seq<Field>, k: nat, y: nat)
    requires QUOTE !in table && 0 < k <= |fs| && fs[k - 1].Text? && AllNullFrom(fs, k)
    requires StartAt(table, fs, k - 1) + |TextAt(fs, k - 1)| < y < |Row(table, fs)|
    ensures Row(table, fs)[y] != QUOTE
  {
    hide Row, StartAt;
    if Row(table, fs)[y] == QUOTE {
      var c := QuoteInField(table, fs, y);
      PrintedQuotes(fs[c]);
      if c < k - 1 {
        StartsApart(table, fs, c, k - 1);
      }
    }
  }

  /** A row of NULLs has no quote at all. */
  lemma NoTextNoValue(table: string, fs: seq<Field>)
    requires QUOTE !in table && 0 < |fs| && AllNullFrom(fs, 0)
    ensures FirstValue(Row(table, fs)) == NotFound
  {
    hide Row, StartAt;
    var str := Row(table, fs);
    forall y | 0 <= y < |str|
      ensures str[y] != QUOTE
    {
      if str[y] == QUOTE {
        var c := QuoteInField(table, fs, y);
      }
    }
    var p := IndexOfText(str, FIRST_VALUE, 0);
    IndexOfNone(str, QUOTE, if p.Some? then p.value + 9 else 8);
  }

  lemma MissingTextIsEmpty(str: string, n: int)
    ensures NthValue(str, n) == NotFound ==> GetNth(str, n) == Some("")
    ensures NthValue(str, n).Span? && NthValue(str, n).s < NthValue(str, n).e ==> GetNth(str, n) != Some("")
  {
  }

  lemma TrailingNullsReadBack(table: string, fs: seq<Field>, k: nat)
    requires QUOTE !in table && PlainUpTo(fs, k) && AllNullFrom(fs, k)
    ensures ReadsBack(table, fs)
  {
    hide Row, NthValue, GetNth, Plain;
    forall n | 1 <= n <= |fs|
      ensures GetNth(Row(table, fs), n) == Some(TextAt(fs, n - 1))
    {
      if n <= k {
        PlainFindable(fs, n);
        ValueFound(table, fs, n);
      } else {
        NothingBehindTexts(table, fs, k, n);
        MissingTextIsEmpty(Row(table, fs), n);
      }
    }
  }

  lemma TextsPlain(table: string, fs: seq<Field>)
    requires ReadsBack(table, fs)
    ensures forall c :: 0 <= c < |fs| && fs[c].Text? ==> IsPlainText(fs[c])
  {
    hide Row, GetNth;
    forall c | 0 <= c < |fs| && fs[c].Text?
      ensures IsPlainText(fs[c])
    {
      assert GetNth(Row(table, fs), c + 1) == Some(TextAt(fs, c));
      FoundValuesArePlain(Row(table, fs), c + 1);
    }
  }

  /** A NULL before a text reads as something else, or hides that text. */
  lemma NullBeforeTextLost(table: string, fs: seq<Field>, i: nat, j: nat)
    requires QUOTE !in table && PlainUpTo(fs, i) && i < j < |fs| && fs[j].Text?
    requires forall k :: i <= k < j ==> fs[k].Null?
    requires forall c :: 0 <= c < |fs| && fs[c].Text? ==> IsPlainText(fs[c])
    ensures !ReadsBack(table, fs)
  {
    if i == 0 {
      LeadingNullLost(table, fs, j);
    } else {
      InnerNullLost(table, fs, i, j);
    }
  }

  lemma InnerNullLost(table: string, fs: seq<Field>, i: nat, j: nat)
    requires QUOTE !in table && 0 < i && PlainUpTo(fs, i) && i < j < |fs| && fs[j].Text?
    requires forall k :: i <= k < j ==> fs[k].Null?
    ensures !ReadsBack(table, fs)
  {
    hide Row, NthValue, StartAt, GetNth, Plain, Printed;
    var str := Row(table, fs);
    PlainFindable(fs, i);
    ValueAt(table, fs, i);
    var e, q := StartAt(table, fs, i - 1) + |TextAt(fs, i - 1)|, StartAt(table, fs, j) - 1;
    FieldAround(table, fs, j);
    NextStart(table, fs, i - 1);
    StartsApart(table, fs, i, j);
    PrintedQuotes(fs[i - 1]);
    PrintedQuotes(fs[i]);
    forall y | e + 4 <= y < q
      ensures str[y] != QUOTE
    {
      NoQuoteBetween(table, fs, i - 1, j, y);
    }
    IndexOfIs(str, QUOTE, e + 4, q);
    NextStops(str, i, q);
    MissingTextIsEmpty(str, i + 1);
    assert GetNth(str, i + 1) != Some(TextAt(fs, i));
  }

  lemma NextStops(str: string, n: nat, q: nat)
    requires 1 <= n && NthValue(str, n).Span? && IndexOf(str, QUOTE, NthValue(str, n).e + 4) == Some(q)
    requires str[q - 1] != BACKSLASH
    ensures NthValue(str, n + 1) == Span(NthValue(str, n).e + 4, q)
  {
  }

  lemma LeadingNullLost(table: string, fs: seq<Field>, j: nat)
    requires QUOTE !in table && 0 < j < |fs| && fs[0].Null? && fs[j].Text?
    requires forall c :: 0 <= c < |fs| && fs[c].Text? ==> IsPlainText(fs[c])
    ensures !ReadsBack(table, fs)
  {
    hide Row, NthValue, FirstValue, StartAt, GetNth, KeyField, IndexOfText;
    var str, r := Row(table, fs), KeyField(fs, 1);
    OneIsFirst(str);
    if r.Some? {
      var (c, o) := r.value;
      KeyEndsPlainText(fs[c].text, o);
    }
    NullRowSearch(table, fs);
    MissingTextIsEmpty(str, 1);
    if FirstValue(str).Span? {
      assert GetNth(str, 1) != Some(TextAt(fs, 0));
    } else {
      var (c, o) := r.value;
      KeyFits(fs[c].text, o);
      MissingValue(str, 1, c + 1);
      MissingTextIsEmpty(str, c + 1);
      assert GetNth(str, c + 1) != Some(TextAt(fs, c));
    }
  }

  /** The first NULL and the first text behind it, if the NULLs do not all stand at the end. */
  lemma {:induction false} LeadingTexts(fs: seq<Field>) returns (k: nat)
    ensures k <= |fs| && (forall i :: 0 <= i < k ==> fs[i].Text?) && (k < |fs| ==> fs[k].Null?)
    decreases |fs|
  {
    if fs == [] || fs[0].Null? {
      k := 0;
    } else {
      k := LeadingTexts(fs[1..]);
      k := k + 1;
      forall i | 0 <= i < k
        ensures fs[i].Text?
      {
        assert 0 < i ==> fs[i] == fs[1..][i - 1];
      }
      assert k < |fs| ==> fs[k] == fs[1..][k - 1];
    }
  }

  lemma {:induction false} NextText(fs: seq<Field>, i: nat, j: nat) returns (d: nat)
    requires i < j < |fs| && fs[i].Null? && fs[j].Text?
    ensures i < d <= j && fs[d].Text? && forall k :: i <= k < d ==> fs[k].Null?
    decreases j
  {
    if c :| i < c < j && fs[c].Text? {
      d := NextText(fs, i, c);
    } else {
      d := j;
    }
  }

  /** All values of a row read back exactly when its texts are plain and NULLs stand only at its end. */
  lemma AllValuesRecoveredIff(table: string, fs: seq<Field>)
    requires QUOTE !in table
    ensures (forall n :: 1 <= n <= |fs| ==> GetNth(Row(table, fs), n) == Some(TextAt(fs, n - 1))) <==>
            exists k: nat :: PlainUpTo(fs, k) && AllNullFrom(fs, k)
  {
    hide Row, GetNth, Plain;
    if ReadsBack(table, fs) {
      TextsPlain(table, fs);
      var k := LeadingTexts(fs);
      assert PlainUpTo(fs, k);
      if j :| k <= j < |fs| && fs[j].Text? {
        var d := NextText(fs, k, j);
        NullBeforeTextLost(table, fs, k, d);
      }
      assert AllNullFrom(fs, k);
    }
    if k: nat :| PlainUpTo(fs, k) && AllNullFrom(fs, k) {
      TrailingNullsReadBack(table, fs, k);
    }
  }

  // ---------------------------------------------------------------------------
  // Values behind escaped quotes
  // ---------------------------------------------------------------------------

  /** Value `k`, counted from 1, is a text, and its search ends at its own closing quote. */
  predicate EndsInStep(table: string, fs: seq<Field>, k: nat) {
    1 <= k <= |fs| && fs[k - 1].Text? && EndsAt(Row(table, fs), k, CloseAt(table, fs, k - 1))
  }

  /** The first `n` searches end at the closing quotes of their own fields. */
  predicate InStep(table: string, fs: seq<Field>, n: nat) {
    forall k :: 1 <= k <= n ==> EndsInStep(table, fs, k)
  }

  lemma FirstEndsIff(table: string, fs: seq<Field>)
    requires QUOTE !in table && 0 < |fs| && fs[0].Text?
    ensures EndsAt(Row(table, fs), 1, CloseAt(table, fs, 0)) <==> Plain(TextAt(fs, 0))
  {
    if Plain(TextAt(fs, 0)) {
      hide *;
      FirstIsPlain(fs);
      OrderEnds(table, fs, 1);
    } else {
      FirstStopsEarly(table, fs);
    }
  }

  lemma FirstIsPlain(fs: seq<Field>)
    requires 0 < |fs| && fs[0].Text? && Plain(TextAt(fs, 0))
    ensures InOrder(fs, 1)
  {
    PlainIsClear(fs[0].text);
  }

  /** A value that ends where its field does is the field's text, and values that are found are plain. */
  lemma FirstStopsEarly(table: string, fs: seq<Field>)
    requires QUOTE !in table && 0 < |fs| && fs[0].Text? && !Plain(TextAt(fs, 0))
    ensures !EndsAt(Row(table, fs), 1, CloseAt(table, fs, 0))
  {
    hide Row, Before, Behind, IndexOf, IndexOfText, Plain;
    KeyTextFound(table, fs);
    RowSplit(table, fs, 0);
    FoundValuesArePlain(Row(table, fs), 1);
    var a, t := Before(table, fs, 0), fs[0].text;
    Splice(a, t, [QUOTE] + Behind(fs, 0));
    assert Row(table, fs)[|a|..|a| + |t|] == t;
  }

  /**
   The search keeps step with the fields exactly when these are texts in order: the first is plain,
   and in the others every quote is escaped and no jump leaves the text.
   */
  lemma {:induction false} InStepIff(table: string, fs: seq<Field>, n: nat)
    requires QUOTE !in table && n <= |fs|
    ensures InStep(table, fs, n) <==> InOrder(fs, n)
    decreases n
  {
    hide *;
    if n == 0 {
      NothingInStep(table, fs);
    } else if n == 1 {
      FirstInStep(table, fs);
    } else {
      InStepIff(table, fs, n - 1);
      LastInStep(table, fs, n);
      LastInOrder(fs, n);
    }
  }

  lemma NothingInStep(table: string, fs: seq<Field>)
    ensures InStep(table, fs, 0) && InOrder(fs, 0)
  {
  }

  lemma FirstInStep(table: string, fs: seq<Field>)
    requires QUOTE !in table && 0 < |fs|
    ensures InStep(table, fs, 1) <==> InOrder(fs, 1)
  {
    hide EndsAt, Clear, CloseAt, Row, Plain;
    assert InStep(table, fs, 1) <==> EndsInStep(table, fs, 1);
    if fs[0].Text? {
      FirstEndsIff(table, fs);
      if Plain(TextAt(fs, 0)) {
        FirstIsPlain(fs);
      }
    }
  }

  lemma LastInStep(table: string, fs: seq<Field>, n: nat)
    requires 1 < n <= |fs|
    ensures InStep(table, fs, n) <==> InStep(table, fs, n - 1) && fs[n - 1].Text? && Clear(TextAt(fs, n - 1))
  {
    hide EndsAt, Clear, CloseAt, Row;
    assert InStep(table, fs, n) <==> InStep(table, fs, n - 1) && EndsInStep(table, fs, n);
    if InStep(table, fs, n - 1) && fs[n - 1].Text? {
      assert EndsInStep(table, fs, n - 1);
      NextEndsIff(table, fs, n - 1);
    }
  }

  lemma LastInOrder(fs: seq<Field>, n: nat)
    requires 1 < n <= |fs|
    ensures InOrder(fs, n) <==> InOrder(fs, n - 1) && fs[n - 1].Text? && Clear(TextAt(fs, n - 1))
  {
    hide Clear, Plain;
  }

  /** Behind fields in order a text reads back exactly when it is plain. */
  lemma ValueFoundIff(table: string, fs: seq<Field>, n: nat)
    requires QUOTE !in table && 1 <= n <= |fs| && InOrder(fs, n - 1) && fs[n - 1].Text?
    ensures GetNth(Row(table, fs), n) == Some(TextAt(fs, n - 1)) <==> Plain(TextAt(fs, n - 1))
  {
    hide Row, GetNth, InOrder, Plain;
    if Plain(TextAt(fs, n - 1)) {
      ValueFound(table, fs, n);
    }
    FoundValuesArePlain(Row(table, fs), n);
  }

  /** An apostrophe does no harm unless it stands among the last three characters: the jump behind it then leaves the text. */
  lemma ApostropheNearEnd(table: string, id: string)
    requires QUOTE !in table && Plain(id)
    ensures InStep(table, [Text(id), Text("don\\'t go")], 2)
    ensures !InStep(table, [Text(id), Text("it\\'s")], 2)
  {
    hide InStep;
    PlainIsClear(id);
    var near, far := "it\\'s", "don\\'t go";
    IndexOfIs(near, QUOTE, 0, 3);
    IndexOfIs(far, QUOTE, 0, 4);
    IndexOfNone(far, QUOTE, 8);
    InStepIff(table, [Text(id), Text(far)], 2);
    InStepIff(table, [Text(id), Text(near)], 2);
    assert [Text(id), Text(near)][1].text == near;
    assert !Clear(near);
  }
}
