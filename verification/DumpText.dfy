/**
 The text of a character dump: rows printed as SQL inserts, and the functions that find and
 replace the n-th quoted value of a row.
 */
module DumpText {
  import opened Options

  /** A value of a row: SQL NULL, or text as it stands after escaping. */
  datatype Field = Null | Text(text: string)

  const QUOTE: char := '\''
  const BACKSLASH: char := '\\'
  const INSERT_INTO: string := "INSERT INTO `"
  const VALUES: string := "` VALUES ("
  const FIRST_VALUE: string := "VALUES ('"

  // ---------------------------------------------------------------------------
  // Printing
  // ---------------------------------------------------------------------------

  function Printed(f: Field): (s: string)
  {
    if f.Null? then "NULL" else [QUOTE] + f.text + [QUOTE]
  }

  /** What stands before value `k`, counted from 0. */
  function Separator(k: nat): (s: string)
  {
    if k == 0 then "" else ", "
  }

  /** The values of a row, separated by commas. */
  function Joined(fs: seq<Field>): (s: string)
  {
    if fs == [] then ""
    else Joined(fs[..|fs| - 1]) + Separator(|fs| - 1) + Printed(fs[|fs| - 1])
  }

  lemma JoinedStep(fs: seq<Field>, k: nat)
    requires k < |fs|
    ensures Joined(fs[..k + 1]) == Joined(fs[..k]) + Separator(k) + Printed(fs[k])
  {
    assert fs[..k + 1][..k] == fs[..k];
  }

  function Head(table: string): (s: string)
  {
    INSERT_INTO + table + VALUES
  }

  /** The dump line of a row. */
  function Row(table: string, fs: seq<Field>): (s: string)
  {
    Head(table) + Joined(fs) + ");"
  }

  method CreateDumpString(table: string, fs: seq<Field>) returns (s: string)
    ensures s == Row(table, fs)
  {
    s := Head(table);
    hide Head, Joined, Printed;
    ghost var values: string := "";
    NothingJoined(fs);
    for i := 0 to |fs|
      invariant values == Joined(fs[..i]) && s == Head(table) + values
    {
      JoinedStep(fs, i);
      if i != 0 {
        s := s + ", ";
      }
      s := s + Printed(fs[i]);
      values := values + Separator(i) + Printed(fs[i]);
    }
    assert fs[..|fs|] == fs;
    s := s + ");";
  }

  lemma NothingJoined(fs: seq<Field>)
    ensures Joined(fs[..0]) == ""
  {
  }

  // ---------------------------------------------------------------------------
  // Searching
  // ---------------------------------------------------------------------------

  /** First position of `c` in `s` from `i` on. */
  function IndexOf(s: string, c: char, i: nat): (r: Option<nat>)
    ensures r.Some? ==> i <= r.value < |s| && s[r.value] == c
    decreases |s| - i
  {
    if i >= |s| then None else if s[i] == c then Some(i) else IndexOf(s, c, i + 1)
  }

  /** The first position is the one before which the character does not occur. */
  lemma {:induction false} IndexOfIs(s: string, c: char, i: nat, k: nat)
    requires i <= k < |s| && s[k] == c && forall j :: i <= j < k ==> s[j] != c
    ensures IndexOf(s, c, i) == Some(k)
    decreases k - i
  {
    if i < k {
      assert s[i] != c;
      IndexOfIs(s, c, i + 1, k);
    }
  }

  lemma {:induction false} IndexOfFirst(s: string, c: char, i: nat)
    ensures var r := IndexOf(s, c, i);
            forall j :: i <= j < (if r.Some? then r.value else |s|) ==> s[j] != c
    decreases |s| - i
  {
    if i < |s| && s[i] != c {
      IndexOfFirst(s, c, i + 1);
    }
  }

  lemma {:induction false} IndexOfNone(s: string, c: char, i: nat)
    requires forall j :: i <= j < |s| ==> s[j] != c
    ensures IndexOf(s, c, i) == None
    decreases |s| - i
  {
    if i < |s| {
      IndexOfNone(s, c, i + 1);
    }
  }

  predicate OccursAt(s: string, p: string, i: nat) {
    i + |p| <= |s| && s[i..i + |p|] == p
  }

  /** First position of the text `p` in `s` from `i` on. */
  function IndexOfText(s: string, p: string, i: nat): (r: Option<nat>)
    ensures r.Some? ==> i <= r.value && OccursAt(s, p, r.value)
    decreases |s| - i
  {
    if i + |p| > |s| then None else if s[i..i + |p|] == p then Some(i) else IndexOfText(s, p, i + 1)
  }

  /** Where a value lies, that it was not found, or that the search does not end. */
  datatype Span = Span(s: nat, e: nat) | NotFound | Endless

  /** The closing quote after `s`, four further each time the quote found is escaped. */
  function NextValue(str: string, s: nat): (r: Span)
    requires 1 <= s
    ensures !r.Endless?
    ensures r.Span? ==> s <= r.s <= r.e < |str| && 1 <= r.e && str[r.e] == QUOTE && str[r.e - 1] != BACKSLASH
    decreases |str| - s
  {
    var e := IndexOf(str, QUOTE, s);
    if e.None? then NotFound
    else if str[e.value - 1] != BACKSLASH then Span(s, e.value)
    else NextValue(str, e.value + 4)
  }

  /**
   The first value. Without the key text the start wraps round to 8; an escaped quote makes the
   search start from the same place again and again.
   */
  function FirstValue(str: string): (r: Span)
    ensures r.Span? ==> 1 <= r.s <= r.e < |str| && str[r.e] == QUOTE && str[r.e - 1] != BACKSLASH
  {
    var p := IndexOfText(str, FIRST_VALUE, 0);
    var s := if p.Some? then p.value + 9 else 8;
    var e := IndexOf(str, QUOTE, s);
    if e.None? then NotFound
    else if str[e.value - 1] == BACKSLASH then Endless
    else Span(s, e.value)
  }

  /** The n-th value; numbers below 1 mean the first. */
  function NthValue(str: string, n: int): (r: Span)
    ensures r.Span? ==> 1 <= r.s <= r.e < |str| && str[r.e] == QUOTE && str[r.e - 1] != BACKSLASH
    decreases n
  {
    if n <= 1 then FirstValue(str)
    else
      var r := NthValue(str, n - 1);
      if r.Span? then NextValue(str, r.e + 4) else r
  }

  method FindNth(str: string, n: int) returns (r: Span)
    ensures r == NthValue(str, n)
  {
    hide FirstValue, NextValue;
    r := FindFirst(str);
    var i := 1;
    while i < n && r.Span?
      invariant 1 <= i && (i <= n || i == 1)
      invariant NthValue(str, i) == r
      decreases n - i
    {
      r := FindNext(str, r.e + 4);
      i := i + 1;
    }
    if !r.Span? && i < n {
      MissingValue(str, i, n);
    }
  }

  /** The search for the first value. */
  method FindFirst(str: string) returns (r: Span)
    ensures r == FirstValue(str)
  {
    var p := IndexOfText(str, FIRST_VALUE, 0);
    var s := if p.Some? then p.value + 9 else 8;
    var e := IndexOf(str, QUOTE, s);
    if e.None? {
      return NotFound;
    }
    if str[e.value - 1] == BACKSLASH {
      return Endless;
    }
    return Span(s, e.value);
  }

  /** The loop that skips escaped quotes, four characters at a time. */
  method FindNext(str: string, start: nat) returns (r: Span)
    requires 1 <= start
    ensures r == NextValue(str, start)
  {
    var s := start;
    var e := IndexOf(str, QUOTE, s);
    while e.Some? && str[e.value - 1] == BACKSLASH
      invariant 1 <= s && e == IndexOf(str, QUOTE, s)
      invariant NextValue(str, s) == NextValue(str, start)
      decreases |str| - s
    {
      s := e.value + 4;
      e := IndexOf(str, QUOTE, s);
    }
    return if e.None? then NotFound else Span(s, e.value);
  }

  /** Once a value is missing, all later ones are. */
  lemma {:induction false} MissingValue(str: string, m: int, n: int)
    requires 1 <= m <= n && !NthValue(str, m).Span?
    ensures NthValue(str, n) == NthValue(str, m)
    decreases n
  {
    hide FirstValue, NextValue;
    if m < n {
      MissingValue(str, m, n - 1);
    }
  }

  // ---------------------------------------------------------------------------
  // Reading and editing
  // ---------------------------------------------------------------------------

  /** The text of the n-th value, empty if there is none; None if the search does not end. */
  function GetNth(str: string, n: int): (r: Option<string>)
  {
    match NthValue(str, n)
    case Span(s, e) => Some(str[s..e])
    case NotFound => Some("")
    case Endless => None
  }

  /** What an edit leaves: success and the new text, or a search that does not end. */
  datatype Edit = Edit(ok: bool, str: string) | NeverEnds

  function ChangeNth(str: string, n: int, with: string, insert: bool, nonzero: bool): (r: Edit)
  {
    match NthValue(str, n)
    case Endless => NeverEnds
    case NotFound => Edit(false, str)
    case Span(s, e) =>
      if nonzero && str[s..e] == "0" then Edit(true, str)
      else Edit(true, str[..s] + with + str[if insert then s else e..])
  }

  function GetTableName(str: string): (r: string)
  {
    var e := IndexOf(str, '`', 13);
    if e.None? then "" else str[13..e.value]
  }

  // ---------------------------------------------------------------------------
  // Laws
  // ---------------------------------------------------------------------------

  /** Text without a quote and without a backslash at its end. */
  predicate Plain(t: string) {
    QUOTE !in t && (t == "" || t[|t| - 1] != BACKSLASH)
  }

  predicate IsPlainText(f: Field) {
    f.Text? && Plain(f.text)
  }

  /** From position `i` on, every quote in the text is escaped, jumped over, and no jump or escape reaches its end. */
  predicate ClearFrom(t: string, i: nat)
    requires i <= |t|
    decreases |t| - i
  {
    var e := IndexOf(t, QUOTE, i);
    if e.None? then t == "" || t[|t| - 1] != BACKSLASH
    else e.value > 0 && t[e.value - 1] == BACKSLASH && e.value + 4 <= |t| && ClearFrom(t, e.value + 4)
  }

  /** Text behind which the search goes on in step. */
  predicate Clear(t: string) {
    ClearFrom(t, 0)
  }

  lemma PlainIsClear(t: string)
    requires Plain(t)
    ensures Clear(t)
  {
    IndexOfNone(t, QUOTE, 0);
  }

  lemma {:induction false} NextValueQuoteFree(str: string, s: nat)
    requires 1 <= s
    ensures var r := NextValue(str, s); r.Span? ==> forall j :: r.s <= j < r.e ==> str[j] != QUOTE
    decreases |str| - s
  {
    var e := IndexOf(str, QUOTE, s);
    IndexOfFirst(str, QUOTE, s);
    if e.Some? && str[e.value - 1] == BACKSLASH {
      NextValueQuoteFree(str, e.value + 4);
    }
  }

  lemma NthValueQuoteFree(str: string, n: int)
    ensures var r := NthValue(str, n); r.Span? ==> forall j :: r.s <= j < r.e ==> str[j] != QUOTE
  {
    if n <= 1 {
      var p := IndexOfText(str, FIRST_VALUE, 0);
      IndexOfFirst(str, QUOTE, if p.Some? then p.value + 9 else 8);
    } else if NthValue(str, n - 1).Span? {
      NextValueQuoteFree(str, NthValue(str, n - 1).e + 4);
    }
  }

  /** Whatever the line, a value that is found is plain text. */
  lemma FoundValuesArePlain(str: string, n: int)
    ensures GetNth(str, n).Some? ==> Plain(GetNth(str, n).value)
  {
    var r := NthValue(str, n);
    NthValueQuoteFree(str, n);
    if r.Span? && r.s < r.e {
      var t := str[r.s..r.e];
      assert t[|t| - 1] == str[r.e - 1];
      forall j | 0 <= j < |t|
        ensures t[j] != QUOTE
      {
        assert t[j] == str[r.s + j];
      }
    }
  }

  /** The line up to and including the opening quote of value `k` (counted from 0). */
  function Before(table: string, fs: seq<Field>, k: nat): (s: string)
    requires k < |fs|
    ensures s != "" && s[|s| - 1] == QUOTE
  {
    Head(table) + (Joined(fs[..k]) + Separator(k)) + [QUOTE]
  }

  /** Where the text of value `k` starts. */
  function StartAt(table: string, fs: seq<Field>, k: int): (s: nat)
  {
    if 0 <= k < |fs| then |Before(table, fs, k)| else 0
  }

  function TextAt(fs: seq<Field>, k: int): (t: string)
  {
    if 0 <= k < |fs| && fs[k].Text? then fs[k].text else ""
  }

  /** The line after value `k`. */
  function Behind(fs: seq<Field>, k: nat): (s: string)
    requires k < |fs|
    decreases |fs| - k
  {
    if k == |fs| - 1 then ");" else Separator(k + 1) + Printed(fs[k + 1]) + Behind(fs, k + 1)
  }

  lemma Regroup(a: string, b: string, c: string, d: string)
    ensures (a + b + c) + d == (a + b) + (c + d) == a + (b + (c + d))
  {
  }

  lemma {:induction false} JoinedSplit(fs: seq<Field>, k: nat)
    requires k < |fs|
    ensures Joined(fs) + ");" == (Joined(fs[..k]) + Separator(k)) + (Printed(fs[k]) + Behind(fs, k))
    decreases |fs| - k
  {
    hide Joined, Printed;
    JoinedStep(fs, k);
    if k == |fs| - 1 {
      assert fs[..k + 1] == fs;
      Regroup(Joined(fs[..k]), Separator(k), Printed(fs[k]), ");");
    } else {
      JoinedSplit(fs, k + 1);
      var a, b := Joined(fs[..k]) + Separator(k), Printed(fs[k]);
      var c, d := Separator(k + 1), Printed(fs[k + 1]) + Behind(fs, k + 1);
      Regroup(a, b, c, d);
      Regroup("", Separator(k + 1), Printed(fs[k + 1]), Behind(fs, k + 1));
      assert Behind(fs, k) == c + d;
    }
  }

  /** The line around a text value. */
  lemma RowSplit(table: string, fs: seq<Field>, k: nat)
    requires k < |fs| && fs[k].Text?
    ensures Row(table, fs) == Before(table, fs, k) + fs[k].text + ([QUOTE] + Behind(fs, k))
  {
    hide Joined, Behind, Head, Separator;
    JoinedSplit(fs, k);
    var h, j, t, b := Head(table), Joined(fs[..k]) + Separator(k), fs[k].text, Behind(fs, k);
    assert Row(table, fs) == h + (Joined(fs) + ");");
    assert h + (j + (([QUOTE] + t + [QUOTE]) + b)) == (h + j + [QUOTE]) + t + ([QUOTE] + b);
  }

  lemma BeforeNext(table: string, fs: seq<Field>, k: nat)
    requires k + 1 < |fs| && fs[k].Text? && fs[k + 1].Text?
    ensures StartAt(table, fs, k + 1) == StartAt(table, fs, k) + |TextAt(fs, k)| + 4
  {
    hide Joined, Head;
    JoinedStep(fs, k);
  }

  lemma Infix(a: string, t: string, b: string)
    ensures (a + t + b)[|a|..|a| + |t|] == t
    ensures a != "" ==> (a + t + b)[|a| - 1] == a[|a| - 1]
    ensures b != "" ==> (a + t + b)[|a| + |t|] == b[0]
  {
  }

  lemma PlainHasNoQuote(t: string)
    requires Plain(t)
    ensures forall j :: 0 <= j < |t| ==> t[j] != QUOTE
    ensures t != "" ==> t[|t| - 1] != BACKSLASH
  {
  }

  /** From the start of a plain value between quotes the search stops at its closing quote. */
  lemma PlainValueFound(str: string, s: nat, t: string)
    requires Plain(t) && 1 <= s && s + |t| < |str| && str[s..s + |t|] == t
    requires str[s - 1] == QUOTE && str[s + |t|] == QUOTE
    ensures Closes(str, s, s + |t|)
  {
    hide IndexOf, Plain;
    PlainHasNoQuote(t);
    forall j | s <= j < s + |t|
      ensures str[j] == t[j - s]
    {
      assert str[s..s + |t|][j - s] == str[j];
    }
    IndexOfIs(str, QUOTE, s, s + |t|);
  }

  lemma BeforeIsQuoted(table: string, fs: seq<Field>, k: nat)
    requires k < |fs|
    ensures Before(table, fs, k) != "" && Before(table, fs, k)[|Before(table, fs, k)| - 1] == QUOTE
    ensures StartAt(table, fs, k) == |Before(table, fs, k)|
    ensures fs[k].Text? ==> TextAt(fs, k) == fs[k].text
  {
  }

  /** A text of a row between its quotes. */
  lemma FieldBetween(table: string, fs: seq<Field>, k: nat)
    requires k < |fs| && fs[k].Text?
    ensures var str, s, t := Row(table, fs), StartAt(table, fs, k), TextAt(fs, k);
            && 1 <= s && s + |t| < |str| && str[s..s + |t|] == t && str[s - 1] == QUOTE && str[s + |t|] == QUOTE
  {
    hide *;
    RowSplit(table, fs, k);
    BeforeIsQuoted(table, fs, k);
    Infix(Before(table, fs, k), fs[k].text, [QUOTE] + Behind(fs, k));
  }

  /** The same for a plain value of a row. */
  lemma PlainFieldFound(table: string, fs: seq<Field>, k: nat)
    requires k < |fs| && IsPlainText(fs[k])
    ensures var str, s, t := Row(table, fs), StartAt(table, fs, k), TextAt(fs, k);
            s + |t| <= |str| && Closes(str, s, s + |t|) && str[s..s + |t|] == t
  {
    hide Row, Plain, Closes, Before;
    FieldBetween(table, fs, k);
    PlainValueFound(Row(table, fs), StartAt(table, fs, k), TextAt(fs, k));
  }

  /** From `s` on, the first quote is at `e` and not escaped. */
  predicate Closes(str: string, s: nat, e: nat) {
    1 <= s <= e < |str| && IndexOf(str, QUOTE, s) == Some(e) && str[e - 1] != BACKSLASH
  }

  /** The key text occurs first where the values begin, because no quote comes before. */
  lemma KeyTextFound(table: string, fs: seq<Field>)
    requires QUOTE !in table && 0 < |fs| && fs[0].Text?
    ensures |Before(table, fs, 0)| >= 9
    ensures IndexOfText(Row(table, fs), FIRST_VALUE, 0) == Some(|Before(table, fs, 0)| - 9)
  {
    RowSplit(table, fs, 0);
    var str, a := Row(table, fs), Before(table, fs, 0);
    FirstBefore(table, fs);
    FirstQuote(str, |a| - 1, a);
    KeyTextAt(str, a);
  }

  lemma FirstBefore(table: string, fs: seq<Field>)
    requires QUOTE !in table && 0 < |fs|
    ensures var a := Before(table, fs, 0);
            && |a| >= 9 && a[|a| - 9..] == FIRST_VALUE
            && forall j :: 0 <= j < |a| - 1 ==> a[j] != QUOTE
  {
    NothingJoined(fs);
    var a := Before(table, fs, 0);
    assert a == INSERT_INTO + table + VALUES + [QUOTE];
    assert a == (INSERT_INTO + table + "` ") + FIRST_VALUE;
    forall j | 0 <= j < |a| - 1
      ensures a[j] != QUOTE
    {
      if j < 13 {
        assert a[j] == INSERT_INTO[j];
      } else if j < 13 + |table| {
        assert a[j] == table[j - 13];
      } else {
        assert a[j] == VALUES[j - 13 - |table|];
      }
    }
  }

  lemma FirstQuote(str: string, n: nat, a: string)
    requires |a| == n + 1 <= |str| && str[..n + 1] == a
    requires forall j :: 0 <= j < n ==> a[j] != QUOTE
    ensures forall j :: 0 <= j < n ==> str[j] != QUOTE
  {
    forall j | 0 <= j < n
      ensures str[j] != QUOTE
    {
      assert str[j] == a[j];
    }
  }

  /** Text that ends with a quote occurs first where the first quote is. */
  lemma KeyTextAt(str: string, a: string)
    requires 9 <= |a| <= |str| && str[..|a|] == a && a[|a| - 9..] == FIRST_VALUE
    requires forall j :: 0 <= j < |a| - 1 ==> str[j] != QUOTE
    ensures IndexOfText(str, FIRST_VALUE, 0) == Some(|a| - 9)
  {
    hide *;
    KeyOccurs(str, a);
    forall j: nat | j < |a| - 9
      ensures !OccursAt(str, FIRST_VALUE, j)
    {
      OccurrenceEndsWithQuote(str, j);
    }
    FirstOccurrence(str, FIRST_VALUE, 0, |a| - 9);
  }

  lemma KeyOccurs(str: string, a: string)
    requires 9 <= |a| <= |str| && str[..|a|] == a && a[|a| - 9..] == FIRST_VALUE
    ensures OccursAt(str, FIRST_VALUE, |a| - 9)
  {
    assert str[|a| - 9..|a|] == a[|a| - 9..];
    assert |FIRST_VALUE| == 9;
    hide FIRST_VALUE;
  }

  lemma {:induction false} FirstOccurrence(str: string, p: string, i: nat, k: nat)
    requires i <= k && OccursAt(str, p, k) && forall j: nat :: i <= j < k ==> !OccursAt(str, p, j)
    ensures IndexOfText(str, p, i) == Some(k)
    decreases k - i
  {
    if i < k {
      assert !OccursAt(str, p, i);
      FirstOccurrence(str, p, i + 1, k);
    }
  }

  lemma OccurrenceEndsWithQuote(str: string, j: nat)
    ensures OccursAt(str, FIRST_VALUE, j) ==> j + 9 <= |str| && str[j + 8] == QUOTE
  {
    assert |FIRST_VALUE| == 9 && FIRST_VALUE[8] == QUOTE;
    if OccursAt(str, FIRST_VALUE, j) {
      assert str[j..j + 9][8] == str[j + 8];
    }
  }

  predicate PlainUpTo(fs: seq<Field>, n: nat) {
    n <= |fs| && forall k :: 0 <= k < n ==> IsPlainText(fs[k])
  }

  /** The first `n` fields are texts behind which the search goes on in step; it does so behind the first only if that is plain. */
  predicate InOrder(fs: seq<Field>, n: nat) {
    && n <= |fs| && (forall k :: 0 <= k < n ==> fs[k].Text? && Clear(fs[k].text))
    && (n > 0 ==> IsPlainText(fs[0]))
  }

  /** Field `n` is plain, and the fields before it are in order. */
  predicate Findable(fs: seq<Field>, n: nat) {
    1 <= n <= |fs| && InOrder(fs, n - 1) && IsPlainText(fs[n - 1])
  }

  lemma PlainFindable(fs: seq<Field>, n: nat)
    requires 1 <= n && PlainUpTo(fs, n)
    ensures Findable(fs, n)
  {
    hide Plain, Clear;
    forall k | 0 <= k < n
      ensures fs[k].Text? && Clear(fs[k].text)
    {
      assert IsPlainText(fs[k]);
      PlainIsClear(fs[k].text);
    }
    assert IsPlainText(fs[0]);
  }

  lemma OrderPrefix(fs: seq<Field>, n: nat)
    requires 1 <= n && InOrder(fs, n)
    ensures n <= |fs| && fs[0].Text? && fs[n - 1].Text? && IsPlainText(fs[0]) && Clear(TextAt(fs, n - 1))
    ensures InOrder(fs, n - 1) && (n > 1 ==> fs[n - 2].Text?)
  {
    hide Plain, Clear;
  }

  /** The n-th value ends at `e`. */
  predicate EndsAt(str: string, n: int, e: nat) {
    NthValue(str, n).Span? && NthValue(str, n).e == e
  }

  /** Where the closing quote of value `k` is, counted from 0. */
  function CloseAt(table: string, fs: seq<Field>, k: int): (e: nat)
  {
    StartAt(table, fs, k) + |TextAt(fs, k)|
  }

  lemma {:induction false} IndexOfShift(a: string, t: string, b: string, i: nat)
    requires i <= |t|
    ensures var e := IndexOf(t, QUOTE, i);
            IndexOf(a + t + ([QUOTE] + b), QUOTE, |a| + i) == Some(|a| + if e.Some? then e.value else |t|)
  {
    var str, e := a + t + ([QUOTE] + b), IndexOf(t, QUOTE, i);
    var k := if e.Some? then e.value else |t|;
    IndexOfFirst(t, QUOTE, i);
    assert str[|a| + k] == QUOTE;
    forall j | |a| + i <= j < |a| + k
      ensures str[j] != QUOTE
    {
      assert str[j] == t[j - |a|];
    }
    IndexOfIs(str, QUOTE, |a| + i, |a| + k);
  }

  /** From inside a text the search ends at its closing quote exactly when the rest of the text is clear. */
  lemma {:induction false} ClearFromIff(a: string, t: string, b: string, i: nat)
    requires a != "" && a[|a| - 1] == QUOTE && i <= |t|
    ensures var r := NextValue(a + t + ([QUOTE] + b), |a| + i);
            r.Span? && r.e == |a| + |t| <==> ClearFrom(t, i)
    decreases |t| - i
  {
    var str, e := a + t + ([QUOTE] + b), IndexOf(t, QUOTE, i);
    IndexOfShift(a, t, b, i);
    var k := if e.Some? then e.value else |t|;
    assert str[|a| + k - 1] == if k == 0 then a[|a| - 1] else t[k - 1];
    hide IndexOf;
    if e.Some? && k + 4 <= |t| {
      ClearFromIff(a, t, b, k + 4);
    }
  }

  lemma FieldEndsIff(table: string, fs: seq<Field>, k: nat)
    requires k < |fs| && fs[k].Text?
    ensures StartAt(table, fs, k) >= 1
    ensures var r := NextValue(Row(table, fs), StartAt(table, fs, k));
            r.Span? && r.e == CloseAt(table, fs, k) <==> Clear(TextAt(fs, k))
  {
    hide Before, Behind, Row, NextValue, ClearFrom;
    RowSplit(table, fs, k);
    ClearFromIff(Before(table, fs, k), fs[k].text, Behind(fs, k), 0);
  }

  lemma NextValueFrom(str: string, n: nat, s: nat, e: nat)
    requires 1 <= n && 1 <= s && NthValue(str, n).Span? && NthValue(str, n).e + 4 == s
    ensures EndsAt(str, n + 1, e) <==> var r := NextValue(str, s); r.Span? && r.e == e
  {
  }

  /** Behind a value that ends in step, the next one does exactly when its field is clear. */
  lemma NextEndsIff(table: string, fs: seq<Field>, n: nat)
    requires 1 <= n < |fs| && fs[n - 1].Text? && fs[n].Text? && EndsAt(Row(table, fs), n, CloseAt(table, fs, n - 1))
    ensures EndsAt(Row(table, fs), n + 1, CloseAt(table, fs, n)) <==> Clear(TextAt(fs, n))
  {
    hide Row, NthValue, NextValue, Before, Clear;
    BeforeNext(table, fs, n - 1);
    FieldEndsIff(table, fs, n);
    NextValueFrom(Row(table, fs), n, StartAt(table, fs, n), CloseAt(table, fs, n));
  }

  lemma {:induction false} OrderEnds(table: string, fs: seq<Field>, n: nat)
    requires QUOTE !in table && 1 <= n && InOrder(fs, n)
    ensures EndsAt(Row(table, fs), n, CloseAt(table, fs, n - 1))
  {
    hide *;
    OrderPrefix(fs, n);
    if n == 1 {
      FirstPlain(fs);
      FirstValueAt(table, fs);
      SpanEnds(table, fs, 1);
    } else {
      OrderEnds(table, fs, n - 1);
      NextEndsIff(table, fs, n - 1);
    }
  }

  lemma FirstPlain(fs: seq<Field>)
    requires 0 < |fs| && IsPlainText(fs[0])
    ensures PlainUpTo(fs, 1)
  {
  }

  lemma SpanEnds(table: string, fs: seq<Field>, n: nat)
    requires var s := StartAt(table, fs, n - 1); NthValue(Row(table, fs), n) == Span(s, s + |TextAt(fs, n - 1)|)
    ensures EndsAt(Row(table, fs), n, CloseAt(table, fs, n - 1))
  {
  }

  lemma FirstValueStops(str: string, s: nat, e: nat)
    requires 9 <= s && Closes(str, s, e) && IndexOfText(str, FIRST_VALUE, 0) == Some(s - 9)
    ensures NthValue(str, 1) == Span(s, e)
  {
  }

  lemma NthValueStops(str: string, n: nat, r: Span, s: nat, e: nat)
    requires 1 <= n && r.Span? && NthValue(str, n) == r && s == r.e + 4 && Closes(str, s, e)
    ensures NthValue(str, n + 1) == Span(s, e)
  {
  }

  lemma PlainPrefix(fs: seq<Field>, n: nat)
    requires 1 <= n && PlainUpTo(fs, n)
    ensures n <= |fs| && fs[0].Text? && fs[n - 1].Text? && IsPlainText(fs[0]) && IsPlainText(fs[n - 1])
    ensures n > 1 ==> PlainUpTo(fs, n - 1) && fs[n - 2].Text?
  {
  }

  lemma StartAtZero(table: string, fs: seq<Field>)
    requires |fs| > 0
    ensures StartAt(table, fs, 0) == |Before(table, fs, 0)|
  {
  }

  /** Where the n-th value lies when it is plain and the values before it are in order. */
  lemma ValueAt(table: string, fs: seq<Field>, n: nat)
    requires QUOTE !in table && Findable(fs, n)
    ensures var s := StartAt(table, fs, n - 1); NthValue(Row(table, fs), n) == Span(s, s + |TextAt(fs, n - 1)|)
  {
    hide *;
    FindableParts(fs, n);
    if n == 1 {
      FirstPlain(fs);
      FirstValueAt(table, fs);
    } else {
      OrderPrefix(fs, n - 1);
      OrderEnds(table, fs, n - 1);
      NextValueAt(table, fs, n - 1);
    }
  }

  lemma FindableParts(fs: seq<Field>, n: nat)
    requires Findable(fs, n)
    ensures 1 <= n <= |fs| && InOrder(fs, n - 1) && fs[n - 1].Text? && IsPlainText(fs[n - 1])
  {
  }

  lemma FirstValueAt(table: string, fs: seq<Field>)
    requires QUOTE !in table && PlainUpTo(fs, 1)
    ensures var s := StartAt(table, fs, 0); NthValue(Row(table, fs), 1) == Span(s, s + |TextAt(fs, 0)|)
  {
    hide *;
    PlainPrefix(fs, 1);
    StartAtZero(table, fs);
    KeyTextFound(table, fs);
    FieldCloses(table, fs, 0);
    FirstValueStops(Row(table, fs), StartAt(table, fs, 0), StartAt(table, fs, 0) + |TextAt(fs, 0)|);
  }

  lemma FieldCloses(table: string, fs: seq<Field>, k: nat)
    requires k < |fs| && IsPlainText(fs[k])
    ensures Closes(Row(table, fs), StartAt(table, fs, k), StartAt(table, fs, k) + |TextAt(fs, k)|)
  {
    hide *;
    PlainFieldFound(table, fs, k);
  }

  lemma NextValueAt(table: string, fs: seq<Field>, n: nat)
    requires 1 <= n < |fs| && fs[n - 1].Text? && fs[n].Text? && IsPlainText(fs[n])
    requires EndsAt(Row(table, fs), n, CloseAt(table, fs, n - 1))
    ensures var s := StartAt(table, fs, n); NthValue(Row(table, fs), n + 1) == Span(s, s + |TextAt(fs, n)|)
  {
    hide *;
    BeforeNext(table, fs, n - 1);
    FieldCloses(table, fs, n);
    EndIs(table, fs, n);
    var r, s := NthValue(Row(table, fs), n), StartAt(table, fs, n);
    NthValueStops(Row(table, fs), n, r, s, s + |TextAt(fs, n)|);
  }

  lemma EndIs(table: string, fs: seq<Field>, n: nat)
    requires EndsAt(Row(table, fs), n, CloseAt(table, fs, n - 1))
    ensures var r := NthValue(Row(table, fs), n); r.Span? && r.e == StartAt(table, fs, n - 1) + |TextAt(fs, n - 1)|
  {
  }

  /** The n-th value is found when it is plain and the values before it are in order; later values do not matter. */
  lemma ValueFound(table: string, fs: seq<Field>, n: nat)
    requires QUOTE !in table && Findable(fs, n)
    ensures GetNth(Row(table, fs), n) == Some(TextAt(fs, n - 1))
  {
    hide *;
    FindableParts(fs, n);
    ValueAt(table, fs, n);
    PlainFieldFound(table, fs, n - 1);
    SpanText(Row(table, fs), n, TextAt(fs, n - 1));
  }

  lemma SpanText(str: string, n: int, t: string)
    requires var r := NthValue(str, n); r.Span? && str[r.s..r.e] == t
    ensures GetNth(str, n) == Some(t)
  {
  }

  /** A number beyond the last value finds nothing. */
  lemma ValueMissing(table: string, fs: seq<Field>, n: nat)
    requires QUOTE !in table && PlainUpTo(fs, |fs|) && |fs| < n
    ensures NthValue(Row(table, fs), n) == NotFound
  {
    if fs == [] {
      NoValues(table);
      MissingValue(Row(table, fs), 1, n);
    } else {
      hide *;
      PlainPrefix(fs, |fs|);
      PlainFindable(fs, |fs|);
      ValueAt(table, fs, |fs|);
      RowEnds(table, fs);
      NothingBehind(Row(table, fs), |fs|);
      MissingValue(Row(table, fs), |fs| + 1, n);
    }
  }

  /** Behind the last value there are three characters. */
  lemma RowEnds(table: string, fs: seq<Field>)
    requires 0 < |fs| && fs[|fs| - 1].Text?
    ensures |Row(table, fs)| == StartAt(table, fs, |fs| - 1) + |TextAt(fs, |fs| - 1)| + 3
  {
    hide Row, Before;
    RowSplit(table, fs, |fs| - 1);
  }

  lemma NothingBehind(str: string, n: nat)
    requires 1 <= n && NthValue(str, n).Span? && NthValue(str, n).e + 4 > |str|
    ensures NthValue(str, n + 1) == NotFound
  {
  }

  lemma NoValues(table: string)
    requires QUOTE !in table
    ensures NthValue(Row(table, []), 1) == NotFound
  {
    var str := Row(table, []);
    assert Joined([]) == "";
    assert str == INSERT_INTO + table + VALUES + ");";
    forall j | 0 <= j < |str|
      ensures str[j] != QUOTE
    {
      if 13 <= j < 13 + |table| {
        assert str[j] == table[j - 13];
      } else if 13 + |table| <= j {
        assert str[j] == (VALUES + ");")[j - 13 - |table|];
      }
    }
    var p := IndexOfText(str, FIRST_VALUE, 0);
    IndexOfNone(str, QUOTE, if p.Some? then p.value + 9 else 8);
  }

  /** A NULL in front shifts the reading: the second value of (NULL, 'a') is not found as such. */
  lemma NullMisleads()
    ensures GetNth(Row("t", [Null, Text("a")]), 2) != Some("a")
  {
    hide *;
    NullRow();
    NullRowQuotes(Row("t", [Null, Text("a")]));
    SecondValueLost(Row("t", [Null, Text("a")]));
  }

  lemma NullRowQuotes(str: string)
    requires str == "INSERT INTO `t` VALUES (NULL, 'a');"
    ensures |str| == 35 && forall j :: 0 <= j < 35 && j != 30 && j != 32 ==> str[j] != QUOTE
  {
  }

  lemma NullRow()
    ensures Row("t", [Null, Text("a")]) == "INSERT INTO `t` VALUES (NULL, 'a');"
  {
    TwoJoined(Null, Text("a"));
    hide Joined;
    assert Printed(Text("a")) == "'a'";
    assert "NULL" + ", " + "'a'" == "NULL, 'a'";
    assert Head("t") == "INSERT INTO `t` VALUES (";
  }

  lemma TwoJoined(f: Field, g: Field)
    ensures Joined([f, g]) == Printed(f) + ", " + Printed(g)
  {
    hide Printed;
    var fs := [f, g];
    NothingJoined(fs);
    JoinedStep(fs, 0);
    JoinedStep(fs, 1);
    hide Joined;
    assert fs[..2] == fs;
  }

  /** Only two quotes are left to find, and behind either of them there is no further value. */
  lemma SecondValueLost(str: string)
    requires |str| == 35 && forall j :: 0 <= j < 35 && j != 30 && j != 32 ==> str[j] != QUOTE
    ensures GetNth(str, 2) != Some("a")
  {
    var r := NthValue(str, 1);
    if r.Span? {
      assert r.e == 30 || r.e == 32;
      IndexOfNone(str, QUOTE, r.e + 4);
    }
  }

  /** Replacing a value gives the line of the row with that value replaced, so nothing else changes. */
  lemma ReplacedRow(table: string, fs: seq<Field>, n: nat, with: string)
    requires QUOTE !in table && Findable(fs, n)
    ensures ChangeNth(Row(table, fs), n, with, false, false) == Edit(true, Row(table, fs[n - 1 := Text(with)]))
    ensures ChangeNth(Row(table, fs), n, with, false, true) ==
            Edit(true, if TextAt(fs, n - 1) == "0" then Row(table, fs) else Row(table, fs[n - 1 := Text(with)]))
  {
    hide *;
    FindableParts(fs, n);
    ValueAt(table, fs, n);
    PlainFieldFound(table, fs, n - 1);
    Spliced(table, fs, n - 1, with);
    var s, t := StartAt(table, fs, n - 1), TextAt(fs, n - 1);
    ChangeAtSpan(Row(table, fs), n, s, s + |t|, t, with, Row(table, fs[n - 1 := Text(with)]));
  }

  lemma ChangeAtSpan(str: string, n: int, s: nat, e: nat, t: string, with: string, changed: string)
    requires NthValue(str, n) == Span(s, e) && s <= e <= |str| && str[s..e] == t
    requires str[..s] + with + str[e..] == changed
    ensures ChangeNth(str, n, with, false, false) == Edit(true, changed)
    ensures ChangeNth(str, n, with, false, true) == Edit(true, if t == "0" then str else changed)
  {
    hide NthValue;
  }

  /** Cutting out a value and putting another text in its place. */
  lemma Spliced(table: string, fs: seq<Field>, k: nat, with: string)
    requires k < |fs| && fs[k].Text?
    ensures var str, s, e := Row(table, fs), StartAt(table, fs, k), StartAt(table, fs, k) + |TextAt(fs, k)|;
            e <= |str| && str[..s] + with + str[e..] == Row(table, fs[k := Text(with)])
  {
    hide *;
    SplicedParts(table, fs, k, with);
    RowSplit(table, fs, k);
    RowSplit(table, fs[k := Text(with)], k);
    Splice(Before(table, fs, k), fs[k].text, [QUOTE] + Behind(fs, k));
  }

  lemma SplicedParts(table: string, fs: seq<Field>, k: nat, with: string)
    requires k < |fs| && fs[k].Text?
    ensures var gs := fs[k := Text(with)];
            && Before(table, gs, k) == Before(table, fs, k) && Behind(gs, k) == Behind(fs, k)
            && StartAt(table, fs, k) == |Before(table, fs, k)| && TextAt(fs, k) == fs[k].text
  {
    var gs := fs[k := Text(with)];
    assert gs[..k] == fs[..k];
    assert gs[k + 1..] == fs[k + 1..];
    hide Joined, Head, Behind;
    BehindSame(fs, gs, k);
  }

  lemma Splice(a: string, t: string, b: string)
    ensures (a + t + b)[..|a|] == a && (a + t + b)[|a| + |t|..] == b
  {
  }

  lemma {:induction false} BehindSame(fs: seq<Field>, gs: seq<Field>, k: nat)
    requires k < |fs| == |gs| && fs[k + 1..] == gs[k + 1..]
    ensures Behind(fs, k) == Behind(gs, k)
    decreases |fs| - k
  {
    if k + 1 < |fs| {
      assert fs[k + 1] == fs[k + 1..][0] == gs[k + 1..][0] == gs[k + 1];
      assert fs[k + 2..] == fs[k + 1..][1..];
      assert gs[k + 2..] == gs[k + 1..][1..];
      BehindSame(fs, gs, k + 1);
    }
  }

  /** Edit laws: a replaced plain value reads back, the others read as before, and beyond the end nothing happens. */
  lemma ChangeThenGet(table: string, fs: seq<Field>, n: nat, with: string, m: nat)
    requires QUOTE !in table && PlainUpTo(fs, |fs|) && Plain(with) && 1 <= n && 1 <= m <= |fs|
    ensures var r := ChangeNth(Row(table, fs), n, with, false, false);
            if n <= |fs| then
              r.Edit? && r.ok && GetNth(r.str, m) == if m == n then Some(with) else GetNth(Row(table, fs), m)
            else r == Edit(false, Row(table, fs))
  {
    if n <= |fs| {
      assert PlainUpTo(fs, n) && PlainUpTo(fs, m) && PlainUpTo(fs[n - 1 := Text(with)], m);
      PlainFindable(fs, n);
      PlainFindable(fs, m);
      PlainFindable(fs[n - 1 := Text(with)], m);
      hide Findable, Row, PlainUpTo, Plain, NthValue, ChangeNth, GetNth;
      ReplacedRow(table, fs, n, with);
      ValueFound(table, fs[n - 1 := Text(with)], m);
      ValueFound(table, fs, m);
    } else {
      hide Row, PlainUpTo, Plain, NthValue;
      ValueMissing(table, fs, n);
    }
  }

  /** The table name reads back exactly when it contains no backquote. */
  lemma TableNameRecoveredIff(table: string, fs: seq<Field>)
    ensures GetTableName(Row(table, fs)) == table <==> '`' !in table
  {
    var n, rest := |table|, VALUES + (Joined(fs) + ");");
    RowHead(table, fs);
    var str := Row(table, fs);
    hide Row, Joined;
    assert str == (INSERT_INTO + table) + rest;
    assert |INSERT_INTO| == 13 && rest[0] == VALUES[0] == '`';
    assert str[13 + n] == rest[0];
    assert str[13..13 + n] == table;
    if '`' in table {
      var k :| 0 <= k < n && table[k] == '`';
      assert str[13..13 + n][k] == str[13 + k];
      IndexOfFirst(str, '`', 13);
      assert |GetTableName(str)| < n;
    } else {
      forall j | 13 <= j < 13 + n
        ensures str[j] != '`'
      {
        assert str[j] == str[13..13 + n][j - 13];
      }
      IndexOfIs(str, '`', 13, 13 + n);
    }
  }

  lemma RowHead(table: string, fs: seq<Field>)
    ensures Row(table, fs) == INSERT_INTO + table + (VALUES + (Joined(fs) + ");"))
  {
  }
}
