/**
 A loaded dump in the columns of the tables: where the new owner stands, which columns name items,
 mails, texts and pets and agree with each other, and what stays as it was.
 */
module DumpPositions {
  import opened Options
  import opened Integers
  import opened DumpText
  import opened DumpLoad
  import opened DumpRows

  // ---------------------------------------------------------------------------
  // Columns, counted from 1
  // ---------------------------------------------------------------------------

  /** The column of the character that the row belongs to. */
  function OwnerColumn(t: TableType): (n: nat) {
    match t
    case CharTable => 1
    case Transmog => 1
    case Inventory => 1
    case Item => 3
    case ItemGift => 1
    case ItemLoot => 2
    case Mail => 6
    case MailItem => 4
    case Character => 1
    case Pet => 3
    case ItemText => 0
    case PetTable => 0
  }

  /** The columns that name an item: the item of a slot, its bag, the item itself, gifts, what it holds, what a mail brings. */
  predicate NamesItem(t: TableType, n: nat) {
    || (t.Inventory? && (n == 2 || n == 4)) || (t.Item? && n == 1) || (t.ItemGift? && n == 2)
    || (t.ItemLoot? && n == 1) || (t.MailItem? && n == 2)
  }

  predicate NamesMail(t: TableType, n: nat) {
    (t.Mail? || t.MailItem?) && n == 1
  }

  predicate NamesText(t: TableType, n: nat) {
    (t.Mail? && n == 8) || (t.ItemText? && n == 1)
  }

  predicate NamesPet(t: TableType, n: nat) {
    (t.Pet? || t.PetTable?) && n == 1
  }

  predicate Names(t: TableType, n: nat) {
    NamesItem(t, n) || NamesMail(t, n) || NamesText(t, n) || NamesPet(t, n)
  }

  /** Both columns name things of one kind. */
  predicate SameKind(t: TableType, n: nat, u: TableType, m: nat) {
    || (NamesItem(t, n) && NamesItem(u, m)) || (NamesMail(t, n) && NamesMail(u, m))
    || (NamesText(t, n) && NamesText(u, m)) || (NamesPet(t, n) && NamesPet(u, m))
  }

  /** The number that a column holds. */
  function Number(fs: seq<Field>, n: nat): (g: Option<nat>) {
    OldGuid(TextAt(fs, n - 1))
  }

  // ---------------------------------------------------------------------------
  // Loaded rows
  // ---------------------------------------------------------------------------

  /** The fields of row `i` after the load. */
  function Loaded(ids: Ids, job: Job, name: string, rows: seq<DumpRow>, i: nat): (fs: seq<Field>)
    requires i < |rows| && LoadLines(ids, job, name, PrintedLines(rows)).Loaded?
    ensures |fs| == |rows[i].fields|
  {
    RenamedRow(job.owner, Changes(job, NameAfter(job, name, rows[..i]), rows[i]), rows[i].fields,
               LoadLines(ids, job, name, PrintedLines(rows)).maps)
  }

  /** The line of row `i` after the load prints these fields. */
  lemma LoadedLines(ids: Ids, job: Job, name: string, rows: seq<DumpRow>, i: nat)
    requires AllFresh(ids, 4 * |rows| + 1) && DumpOk(job, name, rows) && i < |rows|
    ensures var l := LoadLines(ids, job, name, PrintedLines(rows));
            l.Loaded? && |l.lines| == |rows| && l.lines[i] == Row(rows[i].name, Loaded(ids, job, name, rows, i))
  {
    hide AllFresh, DumpOk, LoadLines, MapsOk, PetsOk, KnowsPets, Within, NameAfter, Changes, RenamedRow, Row, AllResolved;
    LoadRenamesAll(ids, job, name, rows, 4 * |rows| + 1);
    var l := LoadLines(ids, job, name, PrintedLines(rows));
    assert LoadedAs(job, NameAfter(job, name, rows[..i]), rows[i], l.lines[i], l.maps);
  }

  lemma RowLoadable(job: Job, name: string, rows: seq<DumpRow>, i: nat)
    requires DumpOk(job, name, rows) && i < |rows|
    ensures Loadable(job, NameAfter(job, name, rows[..i]), rows[i])
  {
    hide Loadable, NameAfter, HasPet;
  }

  /** The change that concerns a column. */
  function Change(t: TableType, n: nat): (e: Option<FieldEdit>) {
    EditOf(Plan(t), n)
  }

  /** What the plans make of the columns. */
  lemma PlanColumns(t: TableType, n: nat)
    requires !t.Character?
    ensures Change(t, n) ==
            if n > 0 && n == OwnerColumn(t) then Some(Owner(n))
            else if NamesItem(t, n) then Some(Ref(n, ItemGuid, t.Inventory? && n == 2))
            else if NamesMail(t, n) then Some(Ref(n, MailId, false))
            else if NamesText(t, n) then Some(Ref(n, TextId, false))
            else if NamesPet(t, n) then Some(Ref(n, PetId, false))
            else None
  {
    var es := Plan(t);
    if |es| > 1 {
      assert es[..1] == [es[0]];
      PlanPrefix(t);
    }
  }

  lemma PlanPrefix(t: TableType)
    requires |Plan(t)| > 1
    ensures var es := Plan(t); |es| == 3 ==> es[..2] == [es[0], es[1]] && es[..2][..1] == [es[0]]
  {
  }

  lemma ColumnIs(ids: Ids, job: Job, name: string, rows: seq<DumpRow>, i: nat, n: nat)
    requires i < |rows| && LoadLines(ids, job, name, PrintedLines(rows)).Loaded?
    requires !rows[i].table.Character? && 1 <= n <= |rows[i].fields|
    ensures var f, m := rows[i].fields[n - 1], LoadLines(ids, job, name, PrintedLines(rows)).maps;
            var e := Change(rows[i].table, n);
            Loaded(ids, job, name, rows, i)[n - 1] == if e.None? then f else RenamedField(job.owner, e.value, f, m)
  {
    hide RenamedField, LoadLines, EditOf, Plan, NameAfter;
  }

  /** The row reaches as far as its columns. */
  lemma ColumnThere(job: Job, name: string, rows: seq<DumpRow>, i: nat, n: nat)
    requires DumpOk(job, name, rows) && i < |rows| && !rows[i].table.Character?
    requires (n > 0 && n == OwnerColumn(rows[i].table)) || Names(rows[i].table, n)
    ensures 1 <= n <= |rows[i].fields| && rows[i].fields[n - 1].Text?
    ensures Names(rows[i].table, n) ==> Number(rows[i].fields, n).Some?
  {
    hide *;
    RowLoadable(job, name, rows, i);
    ColumnChanges(rows[i].table, n);
    PlannedThere(job, NameAfter(job, name, rows[..i]), rows[i], Change(rows[i].table, n).value);
    NumberIs(rows[i].fields, n);
  }

  lemma ColumnChanges(t: TableType, n: nat)
    requires !t.Character? && ((n > 0 && n == OwnerColumn(t)) || Names(t, n))
    ensures Change(t, n).Some?
    ensures var e := Change(t, n).value;
            && e in Plan(t) && e.n == n && (Names(t, n) ==> e.Ref?)
            && (e.Ref? ==> (e.nonzero <==> t.Inventory? && n == 2))
  {
    PlanColumns(t, n);
    assert Change(t, n).Some? ==> Change(t, n).value in Plan(t);
    hide Plan, EditOf;
    if Names(t, n) {
      NamesNoOwner(t, n);
    }
  }

  lemma NamesNoOwner(t: TableType, n: nat)
    requires Names(t, n)
    ensures n != OwnerColumn(t) && n > 0 && !t.Character?
  {
  }

  lemma PlannedThere(job: Job, name: string, r: DumpRow, e: FieldEdit)
    requires Loadable(job, name, r) && !r.table.Character? && e in Plan(r.table)
    ensures 1 <= e.n <= |r.fields| && r.fields[e.n - 1].Text?
    ensures e.Ref? ==> OldGuid(TextAt(r.fields, e.n - 1)).Some?
  {
    PlanFits(r.table);
    assert Changes(job, name, r) == Plan(r.table);
    hide Plan, Highest, OldGuid, Plain, Clear, Changes;
  }

  lemma NumberIs(fs: seq<Field>, n: nat)
    ensures Number(fs, n) == OldGuid(TextAt(fs, n - 1))
  {
  }

  // ---------------------------------------------------------------------------
  // Laws
  // ---------------------------------------------------------------------------

  /** The new owner stands in the owner's column of every table that has one. */
  lemma OwnerStands(ids: Ids, job: Job, name: string, rows: seq<DumpRow>, i: nat)
    requires AllFresh(ids, 4 * |rows| + 1) && DumpOk(job, name, rows) && i < |rows| && !rows[i].table.Character?
    requires OwnerColumn(rows[i].table) > 0
    ensures LoadLines(ids, job, name, PrintedLines(rows)).Loaded?
    ensures OwnerColumn(rows[i].table) <= |rows[i].fields|
    ensures Loaded(ids, job, name, rows, i)[OwnerColumn(rows[i].table) - 1] == Text(Decimal(job.owner))
  {
    var n := OwnerColumn(rows[i].table);
    LoadedLines(ids, job, name, rows, i);
    ColumnThere(job, name, rows, i, n);
    PlanColumns(rows[i].table, n);
    hide LoadLines, DumpOk, Loaded, Change, Decimal, OldGuid, AllFresh;
    ColumnIs(ids, job, name, rows, i, n);
  }

  /** All columns that hold neither the owner nor a name of something are as before. */
  lemma OtherColumnsStay(ids: Ids, job: Job, name: string, rows: seq<DumpRow>, i: nat, n: nat)
    requires AllFresh(ids, 4 * |rows| + 1) && DumpOk(job, name, rows) && i < |rows| && !rows[i].table.Character?
    requires 1 <= n <= |rows[i].fields| && n != OwnerColumn(rows[i].table) && !Names(rows[i].table, n)
    ensures LoadLines(ids, job, name, PrintedLines(rows)).Loaded?
    ensures Loaded(ids, job, name, rows, i)[n - 1] == rows[i].fields[n - 1]
  {
    LoadedLines(ids, job, name, rows, i);
    PlanColumns(rows[i].table, n);
    hide LoadLines, DumpOk, Loaded, Change, AllFresh, RenamedField;
    ColumnIs(ids, job, name, rows, i, n);
  }

  lemma ColumnRefers(job: Job, name: string, rows: seq<DumpRow>, i: nat, n: nat)
    requires DumpOk(job, name, rows) && i < |rows| && Names(rows[i].table, n)
    ensures !rows[i].table.Character? && 1 <= n <= |rows[i].fields| && Number(rows[i].fields, n).Some?
    ensures Change(rows[i].table, n).Some?
    ensures var e, g := Change(rows[i].table, n).value, Number(rows[i].fields, n).value;
            && e in Plan(rows[i].table) && e.Ref? && e.n == n && (e.nonzero <==> rows[i].table.Inventory? && n == 2)
            && (Refers(rows[i], e, g) <==> !(rows[i].table.Inventory? && n == 2 && g == 0))
  {
    hide *;
    NamesNoOwner(rows[i].table, n);
    ColumnThere(job, name, rows, i, n);
    ColumnChanges(rows[i].table, n);
    NumberIs(rows[i].fields, n);
    RefersIff(rows[i], Change(rows[i].table, n).value, Number(rows[i].fields, n).value);
  }

  lemma RefersIff(r: DumpRow, e: FieldEdit, g: nat)
    requires e in Plan(r.table) && e.Ref? && OldGuid(TextAt(r.fields, e.n - 1)) == Some(g)
    ensures Refers(r, e, g) <==> !(e.nonzero && g == 0)
  {
    hide OldGuid, Plan, TextAt;
  }

  /** What the reference says after the load. */
  lemma LoadedTextIs(ids: Ids, job: Job, name: string, rows: seq<DumpRow>, i: nat, e: FieldEdit)
    requires i < |rows| && LoadLines(ids, job, name, PrintedLines(rows)).Loaded? && !rows[i].table.Character?
    ensures LoadedText(job.owner, rows[i], e, LoadLines(ids, job, name, PrintedLines(rows)).maps) ==
            TextAt(Loaded(ids, job, name, rows, i), e.n - 1)
  {
    hide RenamedRow, LoadLines, Plan, NameAfter;
  }

  /** The kind of thing that a column names. */
  function KindOf(t: TableType, n: nat): (k: Kind) {
    if NamesItem(t, n) then ItemGuid else if NamesMail(t, n) then MailId else if NamesText(t, n) then TextId else PetId
  }

  lemma KindIs(t: TableType, n: nat)
    requires Names(t, n)
    ensures Change(t, n).Some? && Change(t, n).value.Ref? && Change(t, n).value.kind == KindOf(t, n)
  {
    NamesNoOwner(t, n);
    PlanColumns(t, n);
    hide Change;
  }

  lemma SameKindOf(t: TableType, n: nat, u: TableType, m: nat)
    requires SameKind(t, n, u, m)
    ensures Names(t, n) && Names(u, m) && KindOf(t, n) == KindOf(u, m)
  {
  }

  lemma KindsAre(t: TableType, n: nat, u: TableType, m: nat)
    requires SameKind(t, n, u, m)
    ensures Change(t, n).Some? && Change(u, m).Some? && Change(t, n).value.Ref? && Change(u, m).value.Ref?
    ensures Change(t, n).value.kind == Change(u, m).value.kind
  {
    hide *;
    SameKindOf(t, n, u, m);
    KindIs(t, n);
    KindIs(u, m);
  }

  /**
   Two columns that name items, or mails, or texts, or pets, hold the same number after the load
   exactly when they did before; a bag that is no bag is left aside.
   */
  lemma ColumnsAgreeIff(ids: Ids, job: Job, name: string, rows: seq<DumpRow>, i: nat, n: nat, j: nat, m: nat)
    requires AllFresh(ids, 4 * |rows| + 1) && DumpOk(job, name, rows) && i < |rows| && j < |rows|
    requires SameKind(rows[i].table, n, rows[j].table, m)
    requires !(rows[i].table.Inventory? && n == 2 && Number(rows[i].fields, 2) == Some(0))
    requires !(rows[j].table.Inventory? && m == 2 && Number(rows[j].fields, 2) == Some(0))
    ensures LoadLines(ids, job, name, PrintedLines(rows)).Loaded?
    ensures Number(Loaded(ids, job, name, rows, i), n).Some? && Number(Loaded(ids, job, name, rows, j), m).Some?
    ensures Number(Loaded(ids, job, name, rows, i), n) == Number(Loaded(ids, job, name, rows, j), m) <==>
            Number(rows[i].fields, n) == Number(rows[j].fields, m)
  {
    hide *;
    LoadedLines(ids, job, name, rows, i);
    SameKindNames(rows[i].table, n, rows[j].table, m);
    ColumnRefers(job, name, rows, i, n);
    ColumnRefers(job, name, rows, j, m);
    KindsAre(rows[i].table, n, rows[j].table, m);
    var d, e := Change(rows[i].table, n).value, Change(rows[j].table, m).value;
    var g, h := Number(rows[i].fields, n).value, Number(rows[j].fields, m).value;
    ReferencesAgreeIff(ids, job, name, rows, i, d, g, j, e, h);
    ReferencesAgreeIff(ids, job, name, rows, j, e, h, i, d, g);
    NumbersInjective(ids, job, name, rows, d.kind, g, h);
    LoadedTextIs(ids, job, name, rows, i, d);
    LoadedTextIs(ids, job, name, rows, j, e);
    NumberIs(Loaded(ids, job, name, rows, i), n);
    NumberIs(Loaded(ids, job, name, rows, j), m);
  }

  lemma SameKindNames(t: TableType, n: nat, u: TableType, m: nat)
    requires SameKind(t, n, u, m)
    ensures Names(t, n) && Names(u, m)
  {
  }

  lemma NumbersInjective(ids: Ids, job: Job, name: string, rows: seq<DumpRow>, k: Kind, g: nat, h: nat)
    requires AllFresh(ids, 4 * |rows| + 1) && DumpOk(job, name, rows)
    ensures LoadLines(ids, job, name, PrintedLines(rows)).Loaded?
    ensures var m := LoadLines(ids, job, name, PrintedLines(rows)).maps;
            g in m.Of(k).guids && h in m.Of(k).guids ==> (m.Of(k).guids[g] == m.Of(k).guids[h] <==> g == h)
  {
    hide AllFresh, DumpOk, LoadLines, MapsOk, PetsOk, KnowsPets, LoadedAs, Within, RenamingOk, NameAfter;
    LoadRenamesAll(ids, job, name, rows, 4 * |rows| + 1);
    var l := LoadLines(ids, job, name, PrintedLines(rows));
    EveryKindOk(ids, l.maps, l.side, k);
    if g in l.maps.Of(k).guids && h in l.maps.Of(k).guids {
      NewIdsDiffer(ids, l.maps, k, g, h);
    }
  }

  /** The bag of an item is none after the load exactly when it was none before. */
  lemma BagStaysNoneIff(ids: Ids, job: Job, name: string, rows: seq<DumpRow>, i: nat)
    requires AllFresh(ids, 4 * |rows| + 1) && (forall k, n: nat :: ids(k, n) != 0)
    requires DumpOk(job, name, rows) && i < |rows| && rows[i].table.Inventory?
    ensures LoadLines(ids, job, name, PrintedLines(rows)).Loaded?
    ensures Number(Loaded(ids, job, name, rows, i), 2) == Some(0) <==> Number(rows[i].fields, 2) == Some(0)
    ensures Number(rows[i].fields, 2) == Some(0) ==>
              |rows[i].fields| > 1 && Loaded(ids, job, name, rows, i)[1] == rows[i].fields[1]
  {
    hide *;
    LoadedLines(ids, job, name, rows, i);
    ColumnNamed(Inventory, 2);
    ColumnRefers(job, name, rows, i, 2);
    var e, g := Change(Inventory, 2).value, Number(rows[i].fields, 2).value;
    NumberIs(rows[i].fields, 2);
    NumberIs(Loaded(ids, job, name, rows, i), 2);
    LoadedTextIs(ids, job, name, rows, i, e);
    if g == 0 {
      ZeroStaysZeroIff(ids, job, name, rows, i, e);
      ColumnIs(ids, job, name, rows, i, 2);
      KeptField(job.owner, e, rows[i].fields, 2, LoadLines(ids, job, name, PrintedLines(rows)).maps);
    } else {
      NewNumber(ids, job, name, rows, i, e, g);
    }
  }

  lemma ColumnNamed(t: TableType, n: nat)
    ensures t.Inventory? && (n == 2 || n == 4) ==> Names(t, n)
  {
  }

  lemma KeptField(owner: nat, e: FieldEdit, fs: seq<Field>, n: nat, m: Maps)
    requires e.Ref? && e.nonzero && 1 <= n <= |fs| && Number(fs, n) == Some(0)
    ensures RenamedField(owner, e, fs[n - 1], m) == fs[n - 1]
  {
    hide OldGuid;
  }

  lemma NewNumber(ids: Ids, job: Job, name: string, rows: seq<DumpRow>, i: nat, e: FieldEdit, g: nat)
    requires AllFresh(ids, 4 * |rows| + 1) && (forall k, n: nat :: ids(k, n) != 0)
    requires DumpOk(job, name, rows) && i < |rows| && Refers(rows[i], e, g)
    ensures LoadLines(ids, job, name, PrintedLines(rows)).Loaded?
    ensures OldGuid(LoadedText(job.owner, rows[i], e, LoadLines(ids, job, name, PrintedLines(rows)).maps)) != Some(0)
  {
    hide *;
    LoadRenamesAll(ids, job, name, rows, 4 * |rows| + 1);
    StateBefore(ids, job, name, rows, LoadLines(ids, job, name, PrintedLines(rows)));
    ReferenceParts(rows[i], e, g);
    LoadedReference(ids, job, name, rows, i, e, g, 4 * |rows| + 1);
  }

  /** Every other column that names something names something after the load: a zero there becomes a fresh number. */
  lemma NamedIsNeverNone(ids: Ids, job: Job, name: string, rows: seq<DumpRow>, i: nat, n: nat)
    requires AllFresh(ids, 4 * |rows| + 1) && (forall k, j: nat :: ids(k, j) != 0)
    requires DumpOk(job, name, rows) && i < |rows| && Names(rows[i].table, n) && !(rows[i].table.Inventory? && n == 2)
    ensures LoadLines(ids, job, name, PrintedLines(rows)).Loaded?
    ensures Number(Loaded(ids, job, name, rows, i), n) != Some(0)
  {
    hide *;
    LoadedLines(ids, job, name, rows, i);
    ColumnRefers(job, name, rows, i, n);
    var e, g := Change(rows[i].table, n).value, Number(rows[i].fields, n).value;
    NewNumber(ids, job, name, rows, i, e, g);
    NumberIs(Loaded(ids, job, name, rows, i), n);
    LoadedTextIs(ids, job, name, rows, i, e);
  }

  // ---------------------------------------------------------------------------
  // The character
  // ---------------------------------------------------------------------------

  lemma CharacterColumns(job: Job, name: string, r: DumpRow, n: nat)
    requires r.table.Character?
    ensures var own := job.escape(TextAt(r.fields, 2));
            EditOf(Changes(job, name, r), n) ==
            if n == 1 then Some(Owner(1))
            else if n == 2 then Some(Fixed(2, Decimal(job.account)))
            else if n == 3 && name != "" then Some(Fixed(3, name))
            else if n == 35 && name == "" && job.taken(own) then Some(Fixed(35, "1"))
            else None
  {
    hide Decimal;
    var first := FirstEdits(job);
    assert first[..1] == [Owner(1)];
    var es := Changes(job, name, r);
    if |es| == 3 {
      assert es[..2] == first;
    } else {
      assert es == first;
    }
  }

  /**
   The row of the character: owner and account are the new ones; the name is the given one, or its
   own, which makes it rename itself at the next login if somebody else has that name; all else stays.
   */
  lemma CharacterLoaded(ids: Ids, job: Job, name: string, rows: seq<DumpRow>, i: nat, n: nat)
    requires AllFresh(ids, 4 * |rows| + 1) && DumpOk(job, name, rows) && i < |rows| && rows[i].table.Character?
    requires 1 <= n <= |rows[i].fields|
    ensures LoadLines(ids, job, name, PrintedLines(rows)).Loaded?
    ensures var old_, given := rows[i].fields[n - 1], NameAfter(job, name, rows[..i]);
            Loaded(ids, job, name, rows, i)[n - 1] ==
            if n == 1 then Text(Decimal(job.owner))
            else if n == 2 then Text(Decimal(job.account))
            else if n == 3 && given != "" then Text(given)
            else if n == 35 && given == "" && job.taken(job.escape(TextAt(rows[i].fields, 2))) then Text("1")
            else old_
  {
    hide *;
    LoadedLines(ids, job, name, rows, i);
    CharacterRenamed(job, NameAfter(job, name, rows[..i]), rows[i], n, LoadLines(ids, job, name, PrintedLines(rows)).maps);
    LoadedIs(ids, job, name, rows, i);
  }

  lemma LoadedIs(ids: Ids, job: Job, name: string, rows: seq<DumpRow>, i: nat)
    requires i < |rows| && LoadLines(ids, job, name, PrintedLines(rows)).Loaded?
    ensures Loaded(ids, job, name, rows, i) ==
            RenamedRow(job.owner, Changes(job, NameAfter(job, name, rows[..i]), rows[i]), rows[i].fields,
                       LoadLines(ids, job, name, PrintedLines(rows)).maps)
  {
    hide RenamedRow, Changes, LoadLines, NameAfter;
  }

  lemma CharacterRenamed(job: Job, given: string, r: DumpRow, n: nat, m: Maps)
    requires r.table.Character? && 1 <= n <= |r.fields|
    ensures |RenamedRow(job.owner, Changes(job, given, r), r.fields, m)| == |r.fields|
    ensures RenamedRow(job.owner, Changes(job, given, r), r.fields, m)[n - 1] ==
            if n == 1 then Text(Decimal(job.owner))
            else if n == 2 then Text(Decimal(job.account))
            else if n == 3 && given != "" then Text(given)
            else if n == 35 && given == "" && job.taken(job.escape(TextAt(r.fields, 2))) then Text("1")
            else r.fields[n - 1]
  {
    CharacterColumns(job, given, r, n);
    hide Changes, EditOf, Decimal, OldGuid;
  }
}
