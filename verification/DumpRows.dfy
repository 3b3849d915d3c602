/**
 What a load makes of a dump whose rows were printed by the writer: every row comes out renamed,
 and references to one guid agree wherever they stand.
 */
module DumpRows {
  import opened Options
  import opened Integers
  import opened DumpText
  import opened DumpLoad
  import Guids = ObjectGuids

  // ---------------------------------------------------------------------------
  // What a loaded row says
  // ---------------------------------------------------------------------------

  /** The change made to field `n`, if any. */
  function EditOf(es: seq<FieldEdit>, n: nat): (e: Option<FieldEdit>)
    ensures e.Some? ==> e.value in es && e.value.n == n
    ensures e.None? ==> forall d :: d in es ==> d.n != n
  {
    if es == [] then None
    else if es[|es| - 1].n == n then Some(es[|es| - 1])
    else EditOf(es[..|es| - 1], n)
  }

  /** A reference that stays as it is: zero where zero means none. */
  predicate Kept(e: FieldEdit, g: nat) {
    e.Ref? && e.nonzero && g == 0
  }

  /** The field after the load: the new owner, the given text, or the id that the maps give its old guid. */
  function RenamedField(owner: nat, e: FieldEdit, f: Field, m: Maps): (r: Field)
  {
    match e
    case Owner(_) => Text(Decimal(owner))
    case Fixed(_, text) => Text(text)
    case Ref(_, k, _) =>
      var g := OldGuid(if f.Text? then f.text else "");
      if g.None? || Kept(e, g.value) || g.value !in m.Of(k).guids then f
      else Text(Decimal(m.Of(k).guids[g.value]))
  }

  function RenamedAt(owner: nat, es: seq<FieldEdit>, fs: seq<Field>, m: Maps, i: nat): (r: Field)
    requires i < |fs|
  {
    var e := EditOf(es, i + 1);
    if e.None? then fs[i] else RenamedField(owner, e.value, fs[i], m)
  }

  /** The row after the load. */
  function RenamedRow(owner: nat, es: seq<FieldEdit>, fs: seq<Field>, m: Maps): (r: seq<Field>)
  {
    seq(|fs|, i requires 0 <= i < |fs| => RenamedAt(owner, es, fs, m, i))
  }

  /** The reference is readable and, unless it is kept, has a new id. */
  predicate Resolved(e: FieldEdit, fs: seq<Field>, m: Maps) {
    e.Ref? ==>
      var g := OldGuid(TextAt(fs, e.n - 1));
      g.Some? && (Kept(e, g.value) || g.value in m.Of(e.kind).guids)
  }

  predicate AllResolved(es: seq<FieldEdit>, fs: seq<Field>, m: Maps) {
    forall e :: e in es ==> Resolved(e, fs, m)
  }

  predicate Readable(es: seq<FieldEdit>, fs: seq<Field>) {
    forall e :: e in es && e.Ref? ==> OldGuid(TextAt(fs, e.n - 1)).Some?
  }

  predicate PlainTexts(es: seq<FieldEdit>) {
    forall e :: e in es && e.Fixed? ==> Plain(e.text)
  }

  /** The changes concern different fields, all among the first `n`; what all but the last put in is plain. */
  predicate Fits(es: seq<FieldEdit>, n: nat) {
    && (forall e :: e in es ==> 1 <= e.n <= n)
    && (forall i, j :: 0 <= i < j < |es| ==> es[i].n != es[j].n)
    && (es != [] ==> PlainTexts(es[..|es| - 1]))
  }

  lemma DecimalPlain(n: nat)
    ensures Plain(Decimal(n))
  {
    DecimalReadsBack(n);
  }

  lemma FitsPrefix(es: seq<FieldEdit>, fs: seq<Field>, n: nat)
    requires es != [] && Fits(es, n) && Readable(es, fs)
    ensures var p, e := es[..|es| - 1], es[|es| - 1];
            && Fits(p, n) && Readable(p, fs) && PlainTexts(p) && 1 <= e.n <= n && EditOf(p, e.n).None?
            && (e.Ref? ==> OldGuid(TextAt(fs, e.n - 1)).Some?)
  {
    hide OldGuid, Plain, EditOf, TextAt;
    var p, e := es[..|es| - 1], es[|es| - 1];
    assert e in es;
    forall d | d in p
      ensures d in es && d.n != e.n
    {
    }
    if p != [] {
      forall d | d in p[..|p| - 1]
        ensures d in p
      {
      }
    }
  }

  /** The first `n` fields are in order, and those that a change concerns are plain. */
  predicate Orderly(es: seq<FieldEdit>, fs: seq<Field>, n: nat) {
    InOrder(fs, n) && forall e :: e in es && 1 <= e.n <= |fs| ==> IsPlainText(fs[e.n - 1])
  }

  lemma RenamedFieldPlain(owner: nat, es: seq<FieldEdit>, fs: seq<Field>, m: Maps, i: nat)
    requires i < |fs| && PlainTexts(es)
    ensures var r := RenamedRow(owner, es, fs, m)[i]; r == fs[i] || IsPlainText(r)
  {
    hide EditOf, Plain, Decimal, OldGuid;
    DecimalPlain(owner);
    forall id: nat
      ensures Plain(Decimal(id))
    {
      DecimalPlain(id);
    }
  }

  /** Renaming leaves rows in order. */
  lemma RenamedInOrder(owner: nat, es: seq<FieldEdit>, fs: seq<Field>, m: Maps, n: nat)
    requires InOrder(fs, n) && PlainTexts(es)
    ensures InOrder(RenamedRow(owner, es, fs, m), n)
  {
    var gs := RenamedRow(owner, es, fs, m);
    RenamedSize(owner, es, fs, m);
    hide Plain, Clear, RenamedRow, PlainTexts;
    forall i | 0 <= i < n
      ensures gs[i].Text? && Clear(gs[i].text) && (IsPlainText(fs[i]) ==> IsPlainText(gs[i]))
    {
      RenamedFieldPlain(owner, es, fs, m, i);
      if IsPlainText(gs[i]) {
        PlainIsClear(gs[i].text);
      }
    }
  }

  /** Larger maps rename a resolved row the same way. */
  lemma RenamedStable(owner: nat, es: seq<FieldEdit>, fs: seq<Field>, a: Maps, b: Maps)
    requires AllResolved(es, fs, a) && Grows(a, b)
    ensures RenamedRow(owner, es, fs, a) == RenamedRow(owner, es, fs, b) && AllResolved(es, fs, b)
  {
    hide EditOf, OldGuid, Decimal;
    forall i | 0 <= i < |fs|
      ensures RenamedAt(owner, es, fs, a, i) == RenamedAt(owner, es, fs, b, i)
    {
      var e := EditOf(es, i + 1);
      assert e.Some? ==> Resolved(e.value, fs, a);
    }
  }

  /** One more change replaces one more field. */
  lemma RenamedStep(owner: nat, es: seq<FieldEdit>, fs: seq<Field>, m: Maps)
    requires es != [] && var e := es[|es| - 1]; 1 <= e.n <= |fs| && EditOf(es[..|es| - 1], e.n).None?
    ensures var p, e := es[..|es| - 1], es[|es| - 1];
            && RenamedRow(owner, p, fs, m)[e.n - 1] == fs[e.n - 1]
            && RenamedRow(owner, es, fs, m) == RenamedRow(owner, p, fs, m)[e.n - 1 := RenamedField(owner, e, fs[e.n - 1], m)]
  {
    hide RenamedField;
  }

  /** A change of a printed row gives the printed row with that field renamed. */
  lemma EditedRow(ids: Ids, owner: nat, table: string, fs: seq<Field>, e: FieldEdit, m: Maps)
    requires QUOTE !in table && Findable(fs, e.n)
    requires e.Ref? ==> OldGuid(TextAt(fs, e.n - 1)).Some?
    ensures var o := Edited(ids, owner, Row(table, fs), e, m);
            && o.Done? && Resolved(e, fs, o.maps)
            && o.line == Row(table, fs[e.n - 1 := RenamedField(owner, e, fs[e.n - 1], o.maps)])
  {
    hide Row, ChangeNth, GetNth, OldGuid, Decimal, Plain, Findable;
    FindableParts(fs, e.n);
    ValueFound(table, fs, e.n);
    match e
    case Owner(n) => ReplacedRow(table, fs, n, Decimal(owner));
    case Fixed(n, text) => ReplacedRow(table, fs, n, text);
    case Ref(n, k, nonzero) =>
      var g := OldGuid(TextAt(fs, n - 1)).value;
      var id := Registered(m.Of(k), g, ids(k, m.Of(k).drawn)).1;
      ReplacedRow(table, fs, n, Decimal(id));
      ZeroText(TextAt(fs, n - 1));
      assert fs[n - 1 := fs[n - 1]] == fs;
  }

  lemma ZeroText(t: string)
    ensures t == "0" ==> OldGuid(t) == Some(0)
  {
    if t == "0" {
      assert Value(t[..0]) == 0 && DigitValue(t[0]) == 0;
    }
  }

  /** All changes of a printed row: the row renamed with the maps they leave. */
  lemma {:induction false} LineRenamed(
    ids: Ids, owner: nat, table: string, fs: seq<Field>, es: seq<FieldEdit>, m: Maps, n: nat, drawn: nat,
    limit: nat)
    requires AllFresh(ids, limit) && MapsOk(ids, m) && Within(m, drawn) && drawn + |es| <= limit
    requires QUOTE !in table && Orderly(es, fs, n) && Fits(es, n) && Readable(es, fs) && NoPets(es)
    ensures var o := AllEdited(ids, owner, Row(table, fs), es, m);
            && o.Done? && AllResolved(es, fs, o.maps)
            && o.line == Row(table, RenamedRow(owner, es, fs, o.maps))
    decreases |es|
  {
    hide *;
    if es == [] {
      NothingRenamed(ids, owner, Row(table, fs), fs, m);
    } else {
      var p, e := es[..|es| - 1], es[|es| - 1];
      FitsPrefix(es, fs, n);
      NoPetsPrefix(es);
      OrderlyParts(es, fs, n);
      LineRenamed(ids, owner, table, fs, p, m, n, drawn, limit);
      AllEditedKeepsMaps(ids, owner, Row(table, fs), p, m, drawn, limit);
      var o := AllEdited(ids, owner, Row(table, fs), p, m);
      LastRenamed(ids, owner, table, fs, es, o, n, drawn + |p|, limit);
      LastEdited(ids, owner, Row(table, fs), es, m);
    }
  }

  lemma NoPetsPrefix(es: seq<FieldEdit>)
    requires NoPets(es) && es != []
    ensures NoPets(es[..|es| - 1]) && NoPet(es[|es| - 1])
  {
  }

  lemma NothingRenamed(ids: Ids, owner: nat, line: string, fs: seq<Field>, m: Maps)
    ensures AllEdited(ids, owner, line, [], m) == Done(line, m)
    ensures RenamedRow(owner, [], fs, m) == fs && AllResolved([], fs, m)
  {
  }

  lemma LastEdited(ids: Ids, owner: nat, line: string, es: seq<FieldEdit>, m: Maps)
    requires es != []
    ensures var o := AllEdited(ids, owner, line, es[..|es| - 1], m);
            AllEdited(ids, owner, line, es, m) == if o.Done? then Edited(ids, owner, o.line, es[|es| - 1], o.maps) else o
  {
    hide Edited;
  }

  lemma LastRenamed(ids: Ids, owner: nat, table: string, fs: seq<Field>, es: seq<FieldEdit>, o: Outcome, n: nat,
                    drawn: nat, limit: nat)
    requires AllFresh(ids, limit) && drawn < limit && QUOTE !in table && Orderly(es, fs, n) && Fits(es, n) && Readable(es, fs) && es != []
    requires NoPets(es)
    requires o.Done? && MapsOk(ids, o.maps) && Within(o.maps, drawn) && AllResolved(es[..|es| - 1], fs, o.maps)
    requires o.line == Row(table, RenamedRow(owner, es[..|es| - 1], fs, o.maps))
    ensures var q := Edited(ids, owner, o.line, es[|es| - 1], o.maps);
            && q.Done? && AllResolved(es, fs, q.maps)
            && q.line == Row(table, RenamedRow(owner, es, fs, q.maps))
  {
    hide *;
    var p, e := es[..|es| - 1], es[|es| - 1];
    FitsPrefix(es, fs, n);
    NoPetsPrefix(es);
    OrderlyParts(es, fs, n);
    var fs1 := RenamedRow(owner, p, fs, o.maps);
    RenamedInOrder(owner, p, fs, o.maps, n);
    RenamedSize(owner, p, fs, o.maps);
    RenamedStep(owner, es, fs, o.maps);
    SameText(fs, fs1, e.n - 1);
    FindableIs(fs1, n, e.n);
    EditedRow(ids, owner, table, fs1, e, o.maps);
    var q := Edited(ids, owner, o.line, e, o.maps);
    EditedKeepsMaps(ids, owner, o.line, e, o.maps, drawn, limit);
    RenamedStable(owner, p, fs, o.maps, q.maps);
    RenamedStep(owner, es, fs, q.maps);
    ResolvedToo(es, fs, fs1, q.maps);
  }

  lemma OrderlyParts(es: seq<FieldEdit>, fs: seq<Field>, n: nat)
    requires Orderly(es, fs, n) && es != [] && 1 <= es[|es| - 1].n <= n
    ensures n <= |fs| && InOrder(fs, n) && Orderly(es[..|es| - 1], fs, n) && IsPlainText(fs[es[|es| - 1].n - 1])
  {
    hide Clear, Plain;
    assert es[|es| - 1] in es;
  }

  lemma FindableIs(fs: seq<Field>, n: nat, k: nat)
    requires InOrder(fs, n) && 1 <= k <= n && IsPlainText(fs[k - 1])
    ensures Findable(fs, k)
  {
    hide Plain, Clear;
  }

  lemma RenamedSize(owner: nat, es: seq<FieldEdit>, fs: seq<Field>, m: Maps)
    ensures |RenamedRow(owner, es, fs, m)| == |fs|
  {
  }

  lemma SameText(fs: seq<Field>, gs: seq<Field>, k: nat)
    requires k < |fs| == |gs| && fs[k] == gs[k]
    ensures TextAt(fs, k) == TextAt(gs, k)
  {
  }

  lemma ResolvedToo(es: seq<FieldEdit>, fs: seq<Field>, gs: seq<Field>, m: Maps)
    requires es != [] && AllResolved(es[..|es| - 1], fs, m)
    requires var e := es[|es| - 1]; Resolved(e, gs, m) && TextAt(fs, e.n - 1) == TextAt(gs, e.n - 1)
    ensures AllResolved(es, fs, m)
  {
    hide OldGuid, TextAt;
    forall e | e in es
      ensures Resolved(e, fs, m)
    {
      assert e in es[..|es| - 1] || e == es[|es| - 1];
    }
  }

  // ---------------------------------------------------------------------------
  // What a loaded dump says
  // ---------------------------------------------------------------------------

  /** A row as the writer prints it, with the kind of its table. */
  datatype DumpRow = DumpRow(table: TableType, name: string, fields: seq<Field>)

  function Highest(es: seq<FieldEdit>): (n: nat)
    ensures forall e :: e in es ==> e.n <= n
  {
    if es == [] then 0
    else
      var n, last := Highest(es[..|es| - 1]), es[|es| - 1].n;
      if last > n then last else n
  }

  /** The changes of a row for the character's name at that point, pets seen as references. */
  function Changes(job: Job, name: string, r: DumpRow): (es: seq<FieldEdit>)
  {
    if !r.table.Character? then Plan(r.table)
    else if name != "" then FirstEdits(job) + [Fixed(3, name)]
    else FirstEdits(job) + NameEdits(job, job.escape(TextAt(r.fields, 2)))
  }

  /** The number of fields of a row that a load looks at. */
  function Reach(job: Job, name: string, r: DumpRow): (n: nat)
  {
    var n := Highest(Changes(job, name, r));
    if r.table.Character? && n < 3 then 3 else n
  }

  /**
   The fields that a load looks at are plain, those before them in order, references are numbers,
   and pets have an id of usual length.
   */
  predicate Loadable(job: Job, name: string, r: DumpRow) {
    && QUOTE !in r.name && Orderly(Changes(job, name, r), r.fields, Reach(job, name, r))
    && (r.table.Character? ==> Plain(TextAt(r.fields, 2)))
    && Readable(Changes(job, name, r), r.fields)
    && (r.table.Pet? || r.table.PetTable? ==> 0 < |TextAt(r.fields, 0)| <= 19)
  }

  /** A row of a character gives the name if there is none yet. */
  function NextName(job: Job, name: string, r: DumpRow): (next: string) {
    if r.table.Character? && name == "" then job.escape(TextAt(r.fields, 2)) else name
  }

  /** The name of the character after the rows: the given one, or that of the first row of a character. */
  function NameAfter(job: Job, name: string, rows: seq<DumpRow>): (after: string)
  {
    if rows == [] then name
    else NextName(job, NameAfter(job, name, rows[..|rows| - 1]), rows[|rows| - 1])
  }

  /** The id of the pet that a row is about. */
  function PetGuid(r: DumpRow): (g: nat)
  {
    var g := OldGuid(TextAt(r.fields, 0));
    if g.Some? then g.value else 0
  }

  predicate HasPet(rows: seq<DumpRow>, g: nat) {
    exists i :: 0 <= i < |rows| && rows[i].table.Pet? && PetGuid(rows[i]) == g
  }

  /** Every row is loadable, every pet stands in one row, and what belongs to it comes later. */
  predicate DumpOk(job: Job, name: string, rows: seq<DumpRow>) {
    forall i :: 0 <= i < |rows| ==>
      && Loadable(job, NameAfter(job, name, rows[..i]), rows[i])
      && (rows[i].table.Pet? ==> !HasPet(rows[..i], PetGuid(rows[i])))
      && (rows[i].table.PetTable? ==> HasPet(rows[..i], PetGuid(rows[i])))
  }

  lemma DumpOkPrefix(job: Job, name: string, rows: seq<DumpRow>, n: nat)
    requires DumpOk(job, name, rows) && n <= |rows|
    ensures DumpOk(job, name, rows[..n])
  {
    hide Loadable, NameAfter, HasPet;
    forall i | 0 <= i < n
      ensures rows[..n][..i] == rows[..i]
    {
    }
  }

  function PrintedLine(r: DumpRow): (l: Line) {
    Line(r.table, Row(r.name, r.fields))
  }

  function PrintedLines(rows: seq<DumpRow>): (ls: seq<Line>)
    ensures |ls| == |rows|
  {
    seq(|rows|, i requires 0 <= i < |rows| => PrintedLine(rows[i]))
  }

  /** The row's line after the load, given the maps at its end. */
  function LoadedLine(job: Job, name: string, r: DumpRow, m: Maps): (s: string) {
    Row(r.name, RenamedRow(job.owner, Changes(job, name, r), r.fields, m))
  }

  /** The row was loaded as it should be. */
  predicate LoadedAs(job: Job, name: string, r: DumpRow, line: string, m: Maps) {
    line == LoadedLine(job, name, r, m) && AllResolved(Changes(job, name, r), r.fields, m)
  }

  // ---------------------------------------------------------------------------
  // One row
  // ---------------------------------------------------------------------------

  lemma PlanFits(t: TableType)
    ensures Fits(Plan(t), Highest(Plan(t)))
  {
    hide Highest, Plain;
  }

  /** What one line of a printed row comes to. */
  ghost predicate LineOk(ids: Ids, job: Job, r: DumpRow, m: Maps, side: Side) {
    var (o, side') := LineEdited(ids, job, PrintedLine(r), m, side);
    o.Done? && LoadedAs(job, side.name, r, o.line, o.maps)
  }

  lemma OrdinaryLine(ids: Ids, job: Job, r: DumpRow, m: Maps, side: Side, n: nat, limit: nat)
    requires AllFresh(ids, limit) && MapsOk(ids, m) && Within(m, n) && n + 4 <= limit && Loadable(job, side.name, r)
    requires !r.table.Character? && !r.table.Pet? && !r.table.PetTable?
    ensures LineOk(ids, job, r, m, side)
    ensures LineEdited(ids, job, PrintedLine(r), m, side).0.maps.pets == m.pets
    ensures LineEdited(ids, job, PrintedLine(r), m, side).1 == side
  {
    hide AllFresh, MapsOk, Within, Orderly, Readable, Highest, AllEdited, Row, RenamedRow, AllResolved, Fits, Plan;
    PlanFits(r.table);
    PlanShort(r.table);
    LineRenamed(ids, job.owner, r.name, r.fields, Plan(r.table), m, Highest(Plan(r.table)), n, limit);
    AllEditedKeepsMaps(ids, job.owner, Row(r.name, r.fields), Plan(r.table), m, n, limit);
  }

  lemma PetNumberIs(t: string)
    requires 0 < |t| <= 19 && OldGuid(t).Some?
    ensures PetNumber(Cut(t)) == OldGuid(t).value
  {
  }

  lemma PetIdRead(job: Job, name: string, r: DumpRow)
    requires Loadable(job, name, r) && (r.table.Pet? || r.table.PetTable?)
    ensures GetNth(Row(r.name, r.fields), 1) == Some(TextAt(r.fields, 0)) && TextAt(r.fields, 0) != ""
    ensures OldGuid(TextAt(r.fields, 0)) == Some(PetGuid(r)) && PetNumber(Cut(TextAt(r.fields, 0))) == PetGuid(r)
    ensures |r.fields| >= 1 && IsPlainText(r.fields[0])
    ensures r.table.Pet? ==> InOrder(r.fields, 3) && IsPlainText(r.fields[2])
  {
    hide OldGuid, GetNth, Row, PetNumber, Plain, Clear;
    var es := Plan(r.table);
    assert es[0] in es && es[|es| - 1] in es;
    PetNumberIs(TextAt(r.fields, 0));
    FindableIs(r.fields, Highest(es), 1);
    ValueFound(r.name, r.fields, 1);
  }

  /** A reference to a pet is written as the number that the map has for it. */
  lemma PetFieldSame(owner: nat, fs: seq<Field>, m: Maps, g: nat, rest: seq<FieldEdit>)
    requires |fs| > 0 && fs[0].Text? && OldGuid(TextAt(fs, 0)) == Some(g) && g in m.pets.guids
    requires rest == [] || rest == [Owner(3)]
    ensures RenamedRow(owner, [Fixed(1, Decimal(m.pets.guids[g]))] + rest, fs, m) ==
            RenamedRow(owner, [Ref(1, PetId, false)] + rest, fs, m)
    ensures AllResolved([Ref(1, PetId, false)] + rest, fs, m)
  {
    hide Decimal, OldGuid;
    var a, b := [Fixed(1, Decimal(m.pets.guids[g]))] + rest, [Ref(1, PetId, false)] + rest;
    forall i | 0 <= i < |fs|
      ensures RenamedAt(owner, a, fs, m, i) == RenamedAt(owner, b, fs, m, i)
    {
      PetEditOf(Decimal(m.pets.guids[g]), rest, i + 1);
    }
  }

  lemma PetEditOf(text: string, rest: seq<FieldEdit>, n: nat)
    requires rest == [] || rest == [Owner(3)]
    ensures EditOf([Fixed(1, text)] + rest, n) ==
            if n == 1 then Some(Fixed(1, text)) else if n == 3 && rest != [] then Some(Owner(3)) else None
    ensures EditOf([Ref(1, PetId, false)] + rest, n) ==
            if n == 1 then Some(Ref(1, PetId, false)) else if n == 3 && rest != [] then Some(Owner(3)) else None
  {
    if rest == [] {
      assert [Fixed(1, text)] + rest == [Fixed(1, text)] && [Ref(1, PetId, false)] + rest == [Ref(1, PetId, false)];
    } else {
      var a, b := [Fixed(1, text)] + rest, [Ref(1, PetId, false)] + rest;
      assert a[..1] == [Fixed(1, text)] && b[..1] == [Ref(1, PetId, false)];
    }
  }

  lemma FirstInOrder(fs: seq<Field>)
    requires 0 < |fs| && IsPlainText(fs[0])
    ensures InOrder(fs, 1)
  {
    PlainIsClear(fs[0].text);
  }

  lemma PetEditsFit(text: string, fs: seq<Field>, rest: seq<FieldEdit>)
    requires Plain(text) && (rest == [] || rest == [Owner(3)])
    requires 0 < |fs| && IsPlainText(fs[0]) && (rest != [] ==> InOrder(fs, 3) && IsPlainText(fs[2]))
    ensures var es := [Fixed(1, text)] + rest;
            var n := if rest == [] then 1 else 3;
            Fits(es, n) && Orderly(es, fs, n) && Readable(es, fs) && NoPets(es) && |es| <= 2
  {
    FirstInOrder(fs);
    hide Plain, Clear;
  }

  lemma PetChanges(job: Job, r: DumpRow, rest: seq<FieldEdit>, m: Maps)
    requires (r.table.Pet? && rest == [Owner(3)]) || (r.table.PetTable? && rest == [])
    ensures Changes(job, "", r) == [Ref(1, PetId, false)] + rest
    ensures forall line :: LoadedAs(job, "", r, line, m) <==>
                           line == Row(r.name, RenamedRow(job.owner, [Ref(1, PetId, false)] + rest, r.fields, m)) &&
                           AllResolved([Ref(1, PetId, false)] + rest, r.fields, m)
  {
    assert Changes(job, "", r) == [Ref(1, PetId, false)] + rest;
    hide Row, RenamedRow, AllResolved, Changes;
  }

  /** The planned changes of a pet row, written out. */
  lemma PetLineFrom(ids: Ids, job: Job, r: DumpRow, m: Maps, rest: seq<FieldEdit>, n: nat, limit: nat)
    requires AllFresh(ids, limit) && MapsOk(ids, m) && Within(m, n) && n + 3 <= limit && Loadable(job, "", r)
    requires (r.table.Pet? && rest == [Owner(3)]) || (r.table.PetTable? && rest == [])
    requires PetGuid(r) in m.pets.guids
    ensures var o := AllEdited(ids, job.owner, Row(r.name, r.fields),
                               [Fixed(1, Decimal(m.pets.guids[PetGuid(r)]))] + rest, m);
            o.Done? && o.maps.pets == m.pets && LoadedAs(job, "", r, o.line, o.maps)
  {
    PetIdRead(job, "", r);
    hide AllFresh, MapsOk, Within, AllEdited, Row, RenamedRow, AllResolved, Decimal, OldGuid, Fits, NoPets, Readable, Plain,
      Orderly, Changes, Loadable, LoadedAs, GetNth, PetNumber, Plan, InOrder;
    var k := if r.table.Pet? then 3 else 1;
    var es := [Fixed(1, Decimal(m.pets.guids[PetGuid(r)]))] + rest;
    DecimalPlain(m.pets.guids[PetGuid(r)]);
    PetEditsFit(Decimal(m.pets.guids[PetGuid(r)]), r.fields, rest);
    LineRenamed(ids, job.owner, r.name, r.fields, es, m, k, n, limit);
    AllEditedKeepsMaps(ids, job.owner, Row(r.name, r.fields), es, m, n, limit);
    var o := AllEdited(ids, job.owner, Row(r.name, r.fields), es, m);
    PetFieldSame(job.owner, r.fields, o.maps, PetGuid(r), rest);
    PetChanges(job, r, rest, o.maps);
  }

  /** The name plays no part in rows of other tables. */
  lemma NameAside(job: Job, name: string, r: DumpRow, line: string, m: Maps)
    requires !r.table.Character?
    ensures Loadable(job, name, r) == Loadable(job, "", r)
    ensures LoadedAs(job, name, r, line, m) == LoadedAs(job, "", r, line, m)
  {
    assert Changes(job, name, r) == Changes(job, "", r);
    hide Changes;
  }

  lemma PetLine(ids: Ids, job: Job, r: DumpRow, m: Maps, side: Side, n: nat, limit: nat)
    requires AllFresh(ids, limit) && MapsOk(ids, m) && Within(m, n) && n + 4 <= limit && Loadable(job, side.name, r)
    requires r.table.Pet? && PetGuid(r) !in m.pets.guids
    ensures LineOk(ids, job, r, m, side)
    ensures var (o, side') := LineEdited(ids, job, PrintedLine(r), m, side);
            o.maps.pets.guids.Keys == m.pets.guids.Keys + {PetGuid(r)} && side'.name == side.name
  {
    hide AllFresh, MapsOk, AllEdited, Row, Decimal, OldGuid, GetNth, PetNumber, Loadable, LoadedAs;
    NameAside(job, side.name, r, "", m);
    PetIdRead(job, side.name, r);
    PlanningOk(ids, job, PrintedLine(r), m, side, n);
    var p := Planning(ids, job, PrintedLine(r), m, side);
    PetLineFrom(ids, job, r, p.maps, [Owner(3)], n + 1, limit);
    assert p.es == [Fixed(1, Decimal(p.maps.pets.guids[PetGuid(r)]))] + [Owner(3)];
    var o := LineEdited(ids, job, PrintedLine(r), m, side).0;
    NameAside(job, side.name, r, o.line, o.maps);
  }

  /** Two pet rows at the start of a dump, the first with an empty id, share one new id. */
  lemma EmptyPetIdIsShared(ids: Ids, name: string, r: DumpRow, s: DumpRow, n: nat)
    requires QUOTE !in r.name && Findable(r.fields, 1) && TextAt(r.fields, 0) == ""
    requires QUOTE !in s.name && Findable(s.fields, 1) && PetNumber(Cut(TextAt(s.fields, 0))) == n != 0
    ensures var p := PlannedPet(ids, Row(r.name, r.fields), NO_MAPS, Start(ids, name));
            && p.Planned?
            && var q := PlannedPet(ids, Row(s.name, s.fields), p.maps, p.side);
               q.Planned? && q.maps.pets.guids == map[0 := ids(PetId, 0), n := ids(PetId, 0)]
  {
    hide GetNth, Row, Decimal;
    ValueFound(r.name, r.fields, 1);
    ValueFound(s.name, s.fields, 1);
    assert PetNumber(Cut("")) == 0;
  }

  lemma PetTableLine(ids: Ids, job: Job, r: DumpRow, m: Maps, side: Side, n: nat, limit: nat)
    requires AllFresh(ids, limit) && MapsOk(ids, m) && Within(m, n) && n + 4 <= limit && Loadable(job, side.name, r)
    requires r.table.PetTable? && PetGuid(r) in m.pets.guids
    ensures LineOk(ids, job, r, m, side)
    ensures var (o, side') := LineEdited(ids, job, PrintedLine(r), m, side);
            o.maps.pets == m.pets && side'.name == side.name
  {
    hide AllFresh, MapsOk, AllEdited, Row, Decimal, OldGuid, GetNth, PetNumber, Loadable, LoadedAs;
    NameAside(job, side.name, r, "", m);
    PetIdRead(job, side.name, r);
    PetLineFrom(ids, job, r, m, [], n, limit);
    var p := Planning(ids, job, PrintedLine(r), m, side);
    assert p.es == [Fixed(1, Decimal(m.pets.guids[PetGuid(r)]))] + [];
    var o := LineEdited(ids, job, PrintedLine(r), m, side).0;
    NameAside(job, side.name, r, o.line, o.maps);
  }

  lemma FirstEditsFit(job: Job, fs: seq<Field>, rest: seq<FieldEdit>, n: nat)
    requires rest == [] || (|rest| == 1 && rest[0].Fixed? && 3 <= rest[0].n <= n)
    requires 2 <= n
    ensures var es := FirstEdits(job) + rest; Fits(es, n) && Readable(es, fs) && NoPets(es) && |es| <= 3
  {
    hide Plain, Decimal, OldGuid;
    DecimalPlain(job.account);
    var es := FirstEdits(job) + rest;
    if rest == [] {
      assert es == FirstEdits(job) && es[..1] == [Owner(1)];
    } else {
      assert es[..2] == FirstEdits(job);
    }
  }

  /** Account and name of a character are plain and can be reached. */
  predicate Named(fs: seq<Field>) {
    InOrder(fs, 3) && IsPlainText(fs[1]) && IsPlainText(fs[2])
  }

  lemma NamedOrderly(job: Job, fs: seq<Field>)
    requires Named(fs)
    ensures Orderly(FirstEdits(job), fs, 3)
  {
    hide Plain, Clear, Decimal;
  }

  /** The name is read behind the first two changes, which leave it alone. */
  lemma NameRead(ids: Ids, job: Job, r: DumpRow, m: Maps, n: nat, limit: nat)
    requires AllFresh(ids, limit) && MapsOk(ids, m) && Within(m, n) && n + 4 <= limit
    requires QUOTE !in r.name && Named(r.fields)
    ensures var o := AllEdited(ids, job.owner, Row(r.name, r.fields), FirstEdits(job), m);
            o.Done? && GetNth(o.line, 3) == Some(TextAt(r.fields, 2))
  {
    hide AllFresh, MapsOk, Within, AllEdited, Row, RenamedRow, GetNth, Plain, Decimal, AllResolved;
    var es := FirstEdits(job);
    assert es + [] == es;
    FirstEditsFit(job, r.fields, [], 3);
    NamedOrderly(job, r.fields);
    LineRenamed(ids, job.owner, r.name, r.fields, es, m, 3, n, limit);
    var o := AllEdited(ids, job.owner, Row(r.name, r.fields), es, m);
    var fs := RenamedRow(job.owner, es, r.fields, o.maps);
    FirstEditsPlain(job);
    RenamedSize(job.owner, es, r.fields, o.maps);
    RenamedInOrder(job.owner, es, r.fields, o.maps, 3);
    RenamedFieldPlain(job.owner, es, r.fields, o.maps, 2);
    FindableIs(fs, 3, 3);
    ValueFound(r.name, fs, 3);
    ThirdFieldSame(job, r.fields, o.maps);
  }

  lemma FirstEditsPlain(job: Job)
    ensures PlainTexts(FirstEdits(job))
  {
    hide Plain, Decimal;
    DecimalPlain(job.account);
  }

  lemma ThirdFieldSame(job: Job, fs: seq<Field>, m: Maps)
    requires 3 <= |fs|
    ensures TextAt(RenamedRow(job.owner, FirstEdits(job), fs, m), 2) == TextAt(fs, 2)
  {
    hide Decimal;
    var es := FirstEdits(job);
    assert es[..1] == [Owner(1)];
    assert EditOf(es, 3).None?;
  }

  /** The last change of a character row. */
  function LastChange(job: Job, name: string, r: DumpRow): (es: seq<FieldEdit>)
  {
    if name != "" then [Fixed(3, name)] else NameEdits(job, job.escape(TextAt(r.fields, 2)))
  }

  lemma CharacterPlanned(ids: Ids, job: Job, r: DumpRow, m: Maps, side: Side, n: nat, limit: nat)
    requires AllFresh(ids, limit) && MapsOk(ids, m) && Within(m, n) && n + 4 <= limit
    requires r.table.Character? && QUOTE !in r.name && Named(r.fields)
    ensures Planning(ids, job, PrintedLine(r), m, side) ==
            Planned(FirstEdits(job) + LastChange(job, side.name, r), m,
                    side.(name := if side.name != "" then side.name else job.escape(TextAt(r.fields, 2))))
  {
    hide AllFresh, MapsOk, Within, AllEdited, Row, GetNth, FirstEdits, Named;
    NameRead(ids, job, r, m, n, limit);
  }

  lemma CharacterNamed(job: Job, name: string, r: DumpRow)
    requires Loadable(job, name, r) && r.table.Character?
    ensures Named(r.fields)
  {
    var es := Changes(job, name, r);
    assert es[1] == Fixed(2, Decimal(job.account)) && es[1] in es;
    hide Plain, Clear, Readable, Highest, Decimal;
  }

  lemma CharacterLine(ids: Ids, job: Job, r: DumpRow, m: Maps, side: Side, n: nat, limit: nat)
    requires AllFresh(ids, limit) && MapsOk(ids, m) && Within(m, n) && n + 4 <= limit && Loadable(job, side.name, r)
    requires r.table.Character?
    ensures LineOk(ids, job, r, m, side)
    ensures var (o, side') := LineEdited(ids, job, PrintedLine(r), m, side);
            && o.maps.pets == m.pets
            && side'.name == if side.name != "" then side.name else job.escape(TextAt(r.fields, 2))
  {
    hide *;
    var es, k := Changes(job, side.name, r), Reach(job, side.name, r);
    CharacterChanges(job, side.name, r);
    LastChangeFits(job, side.name, r);
    CharacterNamed(job, side.name, r);
    FirstEditsFit(job, r.fields, LastChange(job, side.name, r), k);
    CharacterPlanned(ids, job, r, m, side, n, limit);
    LineRenamed(ids, job.owner, r.name, r.fields, es, m, k, n, limit);
    AllEditedKeepsMaps(ids, job.owner, Row(r.name, r.fields), es, m, n, limit);
    LineComesTo(ids, job, r, m, side, es);
  }

  lemma CharacterChanges(job: Job, name: string, r: DumpRow)
    requires r.table.Character? && Loadable(job, name, r)
    ensures Changes(job, name, r) == FirstEdits(job) + LastChange(job, name, r)
    ensures QUOTE !in r.name && Orderly(Changes(job, name, r), r.fields, Reach(job, name, r))
    ensures Reach(job, name, r) >= 2
  {
    hide Orderly, Highest, Readable, FirstEdits;
  }

  /** The line of a planned row, from what its changes come to. */
  lemma LineComesTo(ids: Ids, job: Job, r: DumpRow, m: Maps, side: Side, es: seq<FieldEdit>)
    requires es == Changes(job, side.name, r)
    requires var name := if side.name != "" then side.name else job.escape(TextAt(r.fields, 2));
             Planning(ids, job, PrintedLine(r), m, side) == Planned(es, m, side.(name := name))
    requires var o := AllEdited(ids, job.owner, Row(r.name, r.fields), es, m);
             && o.Done? && o.maps.pets == m.pets && AllResolved(es, r.fields, o.maps)
             && o.line == Row(r.name, RenamedRow(job.owner, es, r.fields, o.maps))
    ensures LineOk(ids, job, r, m, side)
    ensures var (o, side') := LineEdited(ids, job, PrintedLine(r), m, side);
            && o.maps.pets == m.pets
            && side'.name == if side.name != "" then side.name else job.escape(TextAt(r.fields, 2))
  {
    hide AllEdited, Row, RenamedRow, AllResolved, Changes, Planning;
  }

  lemma LastChangeFits(job: Job, name: string, r: DumpRow)
    requires r.table.Character?
    ensures var rest, k := LastChange(job, name, r), Reach(job, name, r);
            3 <= k && (rest == [] || (|rest| == 1 && rest[0].Fixed? && 3 <= rest[0].n <= k))
  {
    var es := Changes(job, name, r);
    var rest := LastChange(job, name, r);
    assert es == FirstEdits(job) + rest;
    if rest != [] {
      assert es[|es| - 1] == rest[0] && es[|es| - 1] in es;
    }
    hide Highest, Decimal;
  }

  // ---------------------------------------------------------------------------
  // The whole dump
  // ---------------------------------------------------------------------------

  /** The maps know exactly the pets of the rows. */
  ghost predicate KnowsPets(m: Maps, rows: seq<DumpRow>) {
    forall g :: g in m.pets.guids <==> HasPet(rows, g)
  }

  lemma HasPetMore(rows: seq<DumpRow>, g: nat)
    requires rows != []
    ensures var r := rows[|rows| - 1];
            HasPet(rows, g) <==> HasPet(rows[..|rows| - 1], g) || (r.table.Pet? && PetGuid(r) == g)
  {
    hide PetGuid;
    var n := |rows| - 1;
    if i :| 0 <= i < |rows| && rows[i].table.Pet? && PetGuid(rows[i]) == g {
      assert i < n ==> rows[..n][i] == rows[i];
    }
    if i :| 0 <= i < n && rows[..n][i].table.Pet? && PetGuid(rows[..n][i]) == g {
      assert rows[..n][i] == rows[i];
    }
  }

  lemma KnowsMore(a: Maps, b: Maps, rows: seq<DumpRow>)
    requires rows != [] && KnowsPets(a, rows[..|rows| - 1])
    requires var r := rows[|rows| - 1];
             b.pets.guids.Keys == a.pets.guids.Keys + if r.table.Pet? then {PetGuid(r)} else {}
    ensures KnowsPets(b, rows)
  {
    hide HasPet, PetGuid;
    forall g
      ensures g in b.pets.guids <==> HasPet(rows, g)
    {
      HasPetMore(rows, g);
      assert g in b.pets.guids <==> g in b.pets.guids.Keys;
    }
  }

  /** What holds when the rows have been loaded. */
  ghost predicate LoadOk(ids: Ids, job: Job, name: string, rows: seq<DumpRow>, l: Load) {
    && l.Loaded? && |l.lines| == |rows|
    && MapsOk(ids, l.maps) && Within(l.maps, 4 * |rows| + 1) && PetsOk(ids, l.maps, l.side) && KnowsPets(l.maps, rows)
    && l.side.name == NameAfter(job, name, rows)
    && forall i :: 0 <= i < |rows| ==> LoadedAs(job, NameAfter(job, name, rows[..i]), rows[i], l.lines[i], l.maps)
  }

  /** The pets known after a row. */
  function PetsAfter(m: Maps, r: DumpRow): (gs: set<nat>) {
    m.pets.guids.Keys + if r.table.Pet? then {PetGuid(r)} else {}
  }

  /** A new pet, a row of a known one, or a row of something else. */
  predicate PetFits(m: Maps, r: DumpRow) {
    && (r.table.Pet? ==> PetGuid(r) !in m.pets.guids)
    && (r.table.PetTable? ==> PetGuid(r) in m.pets.guids)
  }

  /** One row of any table. */
  lemma RowLine(ids: Ids, job: Job, r: DumpRow, m: Maps, side: Side, n: nat, limit: nat)
    requires AllFresh(ids, limit) && MapsOk(ids, m) && Within(m, n) && n + 4 <= limit && Loadable(job, side.name, r)
    requires PetFits(m, r)
    ensures LineOk(ids, job, r, m, side)
    ensures var (o, side') := LineEdited(ids, job, PrintedLine(r), m, side);
            o.maps.pets.guids.Keys == PetsAfter(m, r) && side'.name == NextName(job, side.name, r)
  {
    hide AllFresh, MapsOk, Within, LineEdited, Loadable, LoadedAs, PetGuid, PrintedLine, TextAt;
    if r.table.Character? {
      CharacterLine(ids, job, r, m, side, n, limit);
    } else if r.table.Pet? {
      PetLine(ids, job, r, m, side, n, limit);
    } else if r.table.PetTable? {
      PetTableLine(ids, job, r, m, side, n, limit);
    } else {
      OrdinaryLine(ids, job, r, m, side, n, limit);
    }
  }

  lemma PetHasId(job: Job, name: string, r: DumpRow)
    requires Loadable(job, name, r)
    ensures PrintedLine(r).table.Pet? ==> GetNth(PrintedLine(r).text, 1) != Some("")
  {
    hide Loadable, GetNth, Row, OldGuid, PetNumber;
    if r.table.Pet? {
      PetIdRead(job, name, r);
    }
  }

  lemma LastRow(job: Job, name: string, rows: seq<DumpRow>, m: Maps)
    requires rows != [] && DumpOk(job, name, rows) && KnowsPets(m, rows[..|rows| - 1])
    ensures var n := |rows| - 1;
            Loadable(job, NameAfter(job, name, rows[..n]), rows[n]) && PetFits(m, rows[n])
  {
    hide Loadable, NameAfter, HasPet, PetGuid;
  }

  lemma LastName(job: Job, name: string, rows: seq<DumpRow>)
    requires rows != []
    ensures var n := |rows| - 1; NameAfter(job, name, rows) == NextName(job, NameAfter(job, name, rows[..n]), rows[n])
  {
  }

  lemma StateBefore(ids: Ids, job: Job, name: string, rows: seq<DumpRow>, l: Load)
    requires LoadOk(ids, job, name, rows, l)
    ensures l.Loaded? && |l.lines| == |rows|
    ensures MapsOk(ids, l.maps) && Within(l.maps, 4 * |rows| + 1) && PetsOk(ids, l.maps, l.side) && KnowsPets(l.maps, rows)
    ensures l.side.name == NameAfter(job, name, rows)
  {
    hide MapsOk, Within, PetsOk, KnowsPets, NameAfter, LoadedAs;
  }

  lemma LineOkMeans(ids: Ids, job: Job, r: DumpRow, m: Maps, side: Side)
    requires LineOk(ids, job, r, m, side)
    ensures var o := LineEdited(ids, job, PrintedLine(r), m, side).0; o.Done? && LoadedAs(job, side.name, r, o.line, o.maps)
  {
    hide LineEdited, LoadedAs;
  }

  lemma KnowsAfter(a: Maps, b: Maps, rows: seq<DumpRow>)
    requires rows != [] && KnowsPets(a, rows[..|rows| - 1]) && b.pets.guids.Keys == PetsAfter(a, rows[|rows| - 1])
    ensures KnowsPets(b, rows)
  {
    hide KnowsPets, PetGuid;
    KnowsMore(a, b, rows);
  }

  /** The last row of a dump, given that those before it were loaded. */
  lemma OneMoreRow(ids: Ids, job: Job, name: string, rows: seq<DumpRow>, before: Load, limit: nat)
    requires AllFresh(ids, limit) && 4 * |rows| + 1 <= limit && rows != [] && DumpOk(job, name, rows)
    requires LoadOk(ids, job, name, rows[..|rows| - 1], before)
    ensures var r := rows[|rows| - 1];
            var (o, side') := LineEdited(ids, job, PrintedLine(r), before.maps, before.side);
            && o.Done? && LoadedAs(job, before.side.name, r, o.line, o.maps)
            && MapsOk(ids, o.maps) && Within(o.maps, 4 * |rows| + 1) && Grows(before.maps, o.maps)
            && PetsOk(ids, o.maps, side') && KnowsPets(o.maps, rows) && side'.name == NameAfter(job, name, rows)
  {
    hide *;
    StateBefore(ids, job, name, rows[..|rows| - 1], before);
    var n, r, m, side := |rows| - 1, rows[|rows| - 1], before.maps, before.side;
    var k := 4 * n + 1;
    LastRow(job, name, rows, m);
    LastName(job, name, rows);
    LineKeepsMaps(ids, job, PrintedLine(r), m, side, k, limit);
    PetHasId(job, side.name, r);
    LineKeepsPets(ids, job, PrintedLine(r), m, side, k, limit);
    RowLine(ids, job, r, m, side, k, limit);
    LineOkMeans(ids, job, r, m, side);
    KnowsAfter(m, LineEdited(ids, job, PrintedLine(r), m, side).0.maps, rows);
  }

  lemma LoadStep(ids: Ids, job: Job, name: string, rows: seq<DumpRow>)
    requires rows != []
    ensures var n := |rows| - 1;
            var before := LoadLines(ids, job, name, PrintedLines(rows[..n]));
            before.Loaded? ==>
              var (o, side') := LineEdited(ids, job, PrintedLine(rows[n]), before.maps, before.side);
              o.Done? ==>
                LoadLines(ids, job, name, PrintedLines(rows)) == Loaded(before.lines + [o.line], o.maps, side')
  {
    hide LineEdited, PrintedLine;
    var n := |rows| - 1;
    assert PrintedLines(rows)[..n] == PrintedLines(rows[..n]);
  }

  lemma EmptyLoad(ids: Ids, job: Job, name: string)
    ensures LoadOk(ids, job, name, [], LoadLines(ids, job, name, PrintedLines([])))
  {
    EmptyMapsOk(ids);
    NoPetsYet(ids, name);
    hide MapsOk, PetsOk;
  }

  lemma LoadedStable(job: Job, name: string, r: DumpRow, line: string, a: Maps, b: Maps)
    requires LoadedAs(job, name, r, line, a) && Grows(a, b)
    ensures LoadedAs(job, name, r, line, b)
  {
    hide RenamedRow, Row, AllResolved, Grows, Changes;
    RenamedStable(job.owner, Changes(job, name, r), r.fields, a, b);
  }

  /**
   The whole load of a printed dump succeeds, and every line is its row renamed with the maps at
   the end of the load: references written early and late agree.
   */
  lemma {:induction false} LoadRenamesAll(ids: Ids, job: Job, name: string, rows: seq<DumpRow>, limit: nat)
    requires AllFresh(ids, limit) && 4 * |rows| + 1 <= limit && DumpOk(job, name, rows)
    ensures LoadOk(ids, job, name, rows, LoadLines(ids, job, name, PrintedLines(rows)))
    decreases |rows|
  {
    hide AllFresh, DumpOk, LoadLines, LineEdited, MapsOk, PetsOk, KnowsPets, LoadedAs, Grows, Within, NameAfter;
    if rows == [] {
      EmptyLoad(ids, job, name);
    } else {
      var n := |rows| - 1;
      DumpOkPrefix(job, name, rows, n);
      LoadRenamesAll(ids, job, name, rows[..n], limit);
      var before := LoadLines(ids, job, name, PrintedLines(rows[..n]));
      OneMoreRow(ids, job, name, rows, before, limit);
      LoadStep(ids, job, name, rows);
      var (o, side') := LineEdited(ids, job, PrintedLine(rows[n]), before.maps, before.side);
      var lines := before.lines + [o.line];
      forall i | 0 <= i < |rows|
        ensures LoadedAs(job, NameAfter(job, name, rows[..i]), rows[i], lines[i], o.maps)
      {
        if i < n {
          assert rows[..n][i] == rows[i] && rows[..n][..i] == rows[..i];
          LoadedStable(job, NameAfter(job, name, rows[..i]), rows[i], lines[i], before.maps, o.maps);
        }
      }
    }
  }

  // ---------------------------------------------------------------------------
  // References
  // ---------------------------------------------------------------------------

  /** A reference of a row: the field it stands in and the guid it holds. */
  predicate Refers(r: DumpRow, e: FieldEdit, g: nat) {
    e in Plan(r.table) && e.Ref? && OldGuid(TextAt(r.fields, e.n - 1)) == Some(g) && !Kept(e, g)
  }

  /** The text in the field of a change after the load. */
  function LoadedText(owner: nat, r: DumpRow, e: FieldEdit, m: Maps): (t: string) {
    TextAt(RenamedRow(owner, Plan(r.table), r.fields, m), e.n - 1)
  }

  lemma RefersInOrdinary(r: DumpRow, e: FieldEdit, g: nat)
    requires e in Plan(r.table) && e.Ref?
    ensures !r.table.Character?
  {
  }

  lemma EveryKindOk(ids: Ids, m: Maps, side: Side, k: Kind)
    requires MapsOk(ids, m) && PetsOk(ids, m, side)
    ensures RenamingOk(ids, k, m.Of(k))
  {
    hide RenamingOk, PetNumber;
  }

  /**
   Two references of one kind, anywhere in the dump, hold the same number after the load exactly
   when they held the same guid before.
   */
  lemma ReferencesAgreeIff(
    ids: Ids, job: Job, name: string, rows: seq<DumpRow>, i: nat, d: FieldEdit, g: nat, j: nat, e: FieldEdit, h: nat)
    requires AllFresh(ids, 4 * |rows| + 1) && DumpOk(job, name, rows)
    requires i < |rows| && j < |rows| && Refers(rows[i], d, g) && Refers(rows[j], e, h) && d.kind == e.kind
    ensures LoadLines(ids, job, name, PrintedLines(rows)).Loaded?
    ensures var m := LoadLines(ids, job, name, PrintedLines(rows)).maps;
            && g in m.Of(d.kind).guids
            && (LoadedText(job.owner, rows[i], d, m) == LoadedText(job.owner, rows[j], e, m) <==> g == h)
            && OldGuid(LoadedText(job.owner, rows[i], d, m)) == Some(m.Of(d.kind).guids[g])
  {
    hide AllFresh, DumpOk, LoadedText, LoadLines, MapsOk, PetsOk, KnowsPets, LoadedAs, OldGuid, Decimal, Plan, Within, RenamingOk;
    LoadRenamesAll(ids, job, name, rows, 4 * |rows| + 1);
    var l := LoadLines(ids, job, name, PrintedLines(rows));
    EveryKindOk(ids, l.maps, l.side, d.kind);
    LoadedReference(ids, job, name, rows, i, d, g, 4 * |rows| + 1);
    LoadedReference(ids, job, name, rows, j, e, h, 4 * |rows| + 1);
    NewIdsDiffer(ids, l.maps, d.kind, g, h);
  }

  lemma NewIdsDiffer(ids: Ids, m: Maps, k: Kind, g: nat, h: nat)
    requires RenamingOk(ids, k, m.Of(k)) && g in m.Of(k).guids && h in m.Of(k).guids
    ensures m.Of(k).guids[g] == m.Of(k).guids[h] <==> g == h
  {
    hide Drawn;
  }

  /** What a loaded dump says about one of its rows. */
  lemma LoadedRow(ids: Ids, job: Job, name: string, rows: seq<DumpRow>, i: nat)
    requires i < |rows| && DumpOk(job, name, rows)
    requires LoadOk(ids, job, name, rows, LoadLines(ids, job, name, PrintedLines(rows)))
    requires !rows[i].table.Character?
    ensures var m := LoadLines(ids, job, name, PrintedLines(rows)).maps;
            && AllResolved(Plan(rows[i].table), rows[i].fields, m)
            && InOrder(rows[i].fields, Highest(Plan(rows[i].table)))
  {
    hide AllResolved, Plan, Highest, LoadLines, MapsOk, PetsOk, KnowsPets, Within, InOrder, Readable;
    var l := LoadLines(ids, job, name, PrintedLines(rows));
    var at := NameAfter(job, name, rows[..i]);
    assert LoadedAs(job, at, rows[i], l.lines[i], l.maps);
    assert Loadable(job, at, rows[i]);
    hide NameAfter;
  }

  lemma LoadedReference(ids: Ids, job: Job, name: string, rows: seq<DumpRow>, i: nat, e: FieldEdit, g: nat, limit: nat)
    requires AllFresh(ids, limit) && 4 * |rows| + 1 <= limit && DumpOk(job, name, rows)
    requires i < |rows| && Refers(rows[i], e, g)
    requires LoadOk(ids, job, name, rows, LoadLines(ids, job, name, PrintedLines(rows)))
    ensures var m := LoadLines(ids, job, name, PrintedLines(rows)).maps;
            && g in m.Of(e.kind).guids
            && var id := m.Of(e.kind).guids[g];
               && LoadedText(job.owner, rows[i], e, m) == Decimal(id) && OldGuid(Decimal(id)) == Some(id)
               && (exists n: nat :: n < limit && id == ids(e.kind, n))
               && forall n: nat :: Decimal(n) == Decimal(id) ==> n == id
  {
    hide *;
    var r, l := rows[i], LoadLines(ids, job, name, PrintedLines(rows));
    StateBefore(ids, job, name, rows, l);
    ReferenceParts(r, e, g);
    LoadedRow(ids, job, name, rows, i);
    EveryKindOk(ids, l.maps, l.side, e.kind);
    ResolvedAt(r, e, g, l.maps);
    MappedFits(ids, l.maps, e.kind, g, 4 * |rows| + 1, limit);
    var id := l.maps.Of(e.kind).guids[g];
    DecimalIsFaithful(id);
    RenamedText(job.owner, r, e, g, l.maps);
  }

  lemma ReferenceParts(r: DumpRow, e: FieldEdit, g: nat)
    requires Refers(r, e, g)
    ensures e in Plan(r.table) && e.Ref? && !r.table.Character?
  {
    hide OldGuid;
    RefersInOrdinary(r, e, g);
  }

  lemma ResolvedAt(r: DumpRow, e: FieldEdit, g: nat, m: Maps)
    requires Refers(r, e, g) && e.Ref? && AllResolved(Plan(r.table), r.fields, m)
    ensures g in m.Of(e.kind).guids
  {
    hide OldGuid, Plan, TextAt;
    assert Resolved(e, r.fields, m);
  }

  /** The field of a reference holds the new id of its guid. */
  lemma RenamedText(owner: nat, r: DumpRow, e: FieldEdit, g: nat, m: Maps)
    requires Refers(r, e, g) && e.Ref? && InOrder(r.fields, Highest(Plan(r.table))) && g in m.Of(e.kind).guids
    ensures LoadedText(owner, r, e, m) == Decimal(m.Of(e.kind).guids[g])
  {
    hide Decimal, OldGuid, Highest, Plan, Plain, EditOf, Fits;
    PlanFits(r.table);
    UniqueEdit(Plan(r.table), e, Highest(Plan(r.table)));
  }

  lemma MappedFits(ids: Ids, m: Maps, k: Kind, g: nat, n: nat, limit: nat)
    requires AllFresh(ids, limit) && RenamingOk(ids, k, m.Of(k)) && Within(m, n) && n <= limit && g in m.Of(k).guids
    ensures m.Of(k).guids[g] < U32_RANGE
    ensures exists i: nat :: i < limit && m.Of(k).guids[g] == ids(k, i)
  {
    assert Drawn(ids, k, m.Of(k).drawn, m.Of(k).guids[g]);
    assert FreshFor(ids, k, limit);
    assert m.Of(k).drawn <= n;
    var i: nat :| i < m.Of(k).drawn && m.Of(k).guids[g] == ids(k, i);
    assert i < limit;
  }

  /** No two changes concern one field. */
  lemma UniqueEdit(es: seq<FieldEdit>, e: FieldEdit, n: nat)
    requires Fits(es, n) && e in es
    ensures 1 <= e.n <= n && EditOf(es, e.n) == Some(e)
  {
    hide EditOf, Plain;
    var d := EditOf(es, e.n);
    assert d.Some?;
  }

  /** A zero bag, or any other field no change touches, is still there after the load. */
  lemma UntouchedStays(owner: nat, es: seq<FieldEdit>, fs: seq<Field>, m: Maps, n: nat)
    requires 1 <= n <= |fs|
    requires var e := EditOf(es, n);
             e.None? || (OldGuid(TextAt(fs, n - 1)).Some? && Kept(e.value, OldGuid(TextAt(fs, n - 1)).value))
    ensures RenamedRow(owner, es, fs, m)[n - 1] == fs[n - 1]
  {
    hide EditOf, OldGuid;
  }

  /**
   Zero means none. Only a bag that is zero stays zero: any other reference holding zero, such as
   the text of a mail without text, becomes a reference to a fresh id.
   */
  lemma ZeroStaysZeroIff(ids: Ids, job: Job, name: string, rows: seq<DumpRow>, i: nat, e: FieldEdit)
    requires AllFresh(ids, 4 * |rows| + 1) && (forall k, n: nat :: ids(k, n) != 0)
    requires DumpOk(job, name, rows) && i < |rows|
    requires e in Plan(rows[i].table) && e.Ref? && OldGuid(TextAt(rows[i].fields, e.n - 1)) == Some(0)
    ensures LoadLines(ids, job, name, PrintedLines(rows)).Loaded?
    ensures var m := LoadLines(ids, job, name, PrintedLines(rows)).maps;
            OldGuid(LoadedText(job.owner, rows[i], e, m)) == Some(0) <==> e.nonzero
  {
    hide AllFresh, DumpOk, LoadedText, LoadLines, MapsOk, PetsOk, KnowsPets, LoadedAs, OldGuid, Decimal, Plan, Within;
    LoadRenamesAll(ids, job, name, rows, 4 * |rows| + 1);
    if e.nonzero {
      RefersInOrdinary(rows[i], e, 0);
      LoadedRow(ids, job, name, rows, i);
      KeptText(job.owner, rows[i], e, LoadLines(ids, job, name, PrintedLines(rows)).maps);
    } else {
      LoadedReference(ids, job, name, rows, i, e, 0, 4 * |rows| + 1);
    }
  }

  lemma KeptText(owner: nat, r: DumpRow, e: FieldEdit, m: Maps)
    requires InOrder(r.fields, Highest(Plan(r.table)))
    requires e in Plan(r.table) && e.Ref? && e.nonzero && OldGuid(TextAt(r.fields, e.n - 1)) == Some(0)
    ensures LoadedText(owner, r, e, m) == TextAt(r.fields, e.n - 1)
  {
    hide OldGuid, Plan, Highest, EditOf, Plain;
    PlanFits(r.table);
    UniqueEdit(Plan(r.table), e, Highest(Plan(r.table)));
    UntouchedStays(owner, Plan(r.table), r.fields, m, e.n);
  }

  /** The item ids a load draws from the item guid generator, short of an overflow, are fresh. */
  lemma ItemIdsAreFresh(ids: Ids, w: Guids.World, n: nat)
    requires Guids.WorldOk(Guids.HIGHGUID_ITEM, w)
    requires !Guids.Run(Guids.HIGHGUID_ITEM, w, Guids.OnlyGenerate(n)).gen.stopped
    requires forall i: nat :: i < n ==> ids(ItemGuid, i) == Guids.NthGenerated(Guids.HIGHGUID_ITEM, w, i)
    ensures FreshFor(ids, ItemGuid, n)
    ensures forall i: nat :: i < n ==> ids(ItemGuid, i) !in w.live && ids(ItemGuid, i) != 0
  {
    hide Guids.WorldOk, Guids.Run, Guids.NthGenerated;
    forall i: nat, j: nat | i < n && j < n
      ensures ids(ItemGuid, i) !in w.live && ids(ItemGuid, i) != 0 && (i < j ==> ids(ItemGuid, i) != ids(ItemGuid, j))
    {
      Guids.ConsecutiveCountersDiffer(Guids.HIGHGUID_ITEM, w, n, i, j);
    }
    forall i: nat | i < n
      ensures ids(ItemGuid, i) !in w.live && ids(ItemGuid, i) != 0
    {
      assert i < n && i < n;
    }
  }
}
