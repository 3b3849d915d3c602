/**
 Loading a character dump: every line's owner, account, name and guid references are rewritten,
 each old guid being given one fresh guid for the whole load.
 */
module DumpLoad {
  import opened Options
  import opened Integers
  import opened DumpText

  // ---------------------------------------------------------------------------
  // Decimal numbers
  // ---------------------------------------------------------------------------

  function Digit(d: nat): (c: char)
    requires d < 10
    ensures '0' <= c <= '9'
  {
    '0' + d as char
  }

  function DigitValue(c: char): (d: nat)
    requires '0' <= c <= '9'
    ensures d < 10
  {
    (c - '0') as nat
  }

  /** The number as `%u` prints it. */
  function Decimal(n: nat): (s: string)
    ensures s != ""
  {
    if n < 10 then [Digit(n)] else Decimal(n / 10) + [Digit(n % 10)]
  }

  predicate IsDigits(s: string) {
    forall i :: 0 <= i < |s| ==> '0' <= s[i] <= '9'
  }

  function Value(s: string): (n: nat)
    requires IsDigits(s)
  {
    if s == "" then 0 else 10 * Value(s[..|s| - 1]) + DigitValue(s[|s| - 1])
  }

  const U64_RANGE: nat := 0x1_0000_0000_0000_0000

  /** The old guid of a field: empty reads as 0, other text must be digits and fit 64 bits, and is cut to 32. */
  function OldGuid(s: string): (g: Option<nat>)
    ensures g.Some? ==> g.value < U32_RANGE
  {
    if s == "" then Some(0)
    else if !IsDigits(s) || Value(s) >= U64_RANGE then None
    else Some(Value(s) % U32_RANGE)
  }

  lemma {:induction false} DecimalReadsBack(n: nat)
    ensures IsDigits(Decimal(n)) && Value(Decimal(n)) == n
  {
    if n >= 10 {
      DecimalReadsBack(n / 10);
      assert Decimal(n)[..|Decimal(n)| - 1] == Decimal(n / 10);
    } else {
      assert Decimal(n)[..0] == "";
    }
  }

  /** An empty field reads as 0, and a printed number below 64 bits as its lower 32 bits. */
  lemma OldGuidIs(n: nat)
    ensures OldGuid("") == Some(0)
    ensures OldGuid(Decimal(n)) == if n < 0x1_0000_0000_0000_0000 then Some(n % 0x1_0000_0000) else None
  {
    DecimalReadsBack(n);
  }

  lemma DigitsArePlain(s: string)
    requires IsDigits(s)
    ensures Plain(s)
  {
  }

  /** Printed numbers are plain text, different for different numbers, and read back as the number. */
  lemma DecimalIsFaithful(n: nat)
    requires n < U32_RANGE
    ensures Plain(Decimal(n)) && OldGuid(Decimal(n)) == Some(n)
    ensures Decimal(n) == "0" <==> n == 0
    ensures forall m: nat :: Decimal(m) == Decimal(n) ==> m == n
  {
    DecimalReadsBack(n);
    DecimalReadsBack(0);
    DigitsArePlain(Decimal(n));
    assert Decimal(0) == "0";
    hide Decimal, Value, IsDigits, Plain;
    forall m: nat | Decimal(m) == Decimal(n)
      ensures m == n
    {
      DecimalReadsBack(m);
    }
  }

  // ---------------------------------------------------------------------------
  // Guid maps
  // ---------------------------------------------------------------------------

  /** The kinds of ids a load renames. */
  datatype Kind = ItemGuid | MailId | TextId | PetId

  /** Fresh ids by kind and number: what the generators hand out one after the other. */
  type Ids = (Kind, nat) -> nat

  /** The first `limit` ids of a kind are different 32-bit numbers. */
  ghost predicate FreshFor(ids: Ids, k: Kind, limit: nat) {
    && (forall i: nat :: i < limit ==> ids(k, i) < U32_RANGE)
    && (forall i: nat, j: nat :: i < j < limit ==> ids(k, i) != ids(k, j))
  }

  ghost predicate AllFresh(ids: Ids, limit: nat) {
    forall k :: FreshFor(ids, k, limit)
  }

  /** The renaming of one kind so far: the map and how many ids were drawn. */
  datatype Renaming = Renaming(guids: map<nat, nat>, drawn: nat)

  datatype Maps = Maps(items: Renaming, mails: Renaming, texts: Renaming, pets: Renaming)
  {
    function Of(k: Kind): (r: Renaming) {
      match k
      case ItemGuid => items
      case MailId => mails
      case TextId => texts
      case PetId => pets
    }

    function With(k: Kind, r: Renaming): (m: Maps)
      ensures m.Of(k) == r && forall j :: j != k ==> m.Of(j) == Of(j)
    {
      match k
      case ItemGuid => this.(items := r)
      case MailId => this.(mails := r)
      case TextId => this.(texts := r)
      case PetId => this.(pets := r)
    }
  }

  /** Before the first line; one pet id is drawn ahead. */
  const NO_MAPS := Maps(Renaming(map[], 0), Renaming(map[], 0), Renaming(map[], 0), Renaming(map[], 1))

  /** The id was among the first `n` drawn. */
  ghost predicate Drawn(ids: Ids, k: Kind, n: nat, id: nat) {
    exists i: nat :: i < n && id == ids(k, i)
  }

  /** The map stays an injective function into ids drawn so far. */
  ghost predicate RenamingOk(ids: Ids, k: Kind, r: Renaming) {
    && (forall g :: g in r.guids ==> Drawn(ids, k, r.drawn, r.guids[g]))
    && (forall g, h :: g in r.guids && h in r.guids && g != h ==> r.guids[g] != r.guids[h])
  }

  /** The maps that `RegisterNewGuid` fills; pets go another way. */
  ghost predicate MapsOk(ids: Ids, m: Maps) {
    forall k :: k != PetId ==> RenamingOk(ids, k, m.Of(k))
  }

  /** What was renamed stays renamed the same way. */
  ghost predicate Grows(a: Maps, b: Maps) {
    forall k, g :: g in a.Of(k).guids ==> g in b.Of(k).guids && b.Of(k).guids[g] == a.Of(k).guids[g]
  }

  /** Of each kind at most `n` ids were drawn. */
  predicate Within(m: Maps, n: nat) {
    m.items.drawn <= n && m.mails.drawn <= n && m.texts.drawn <= n && m.pets.drawn <= n
  }

  /** The id of an old guid: the one it has, or the one just drawn. */
  function Registered(r: Renaming, old_: nat, drawn: nat): (r': (Renaming, nat))
  {
    if old_ in r.guids then (r, r.guids[old_]) else (r.(guids := r.guids[old_ := drawn]), drawn)
  }

  // ---------------------------------------------------------------------------
  // Rewriting a line
  // ---------------------------------------------------------------------------

  /** One change of a line: the new character guid, a given text, or a reference that is renamed. */
  datatype FieldEdit = Owner(n: nat) | Fixed(n: nat, text: string) | Ref(n: nat, kind: Kind, nonzero: bool)

  datatype TableType =
    | CharTable | Transmog | Inventory | Item | ItemGift | ItemLoot | Mail | MailItem | ItemText
    | Character | Pet | PetTable

  /** The changes of each kind of table, as far as they do not depend on the line. */
  function Plan(t: TableType): (es: seq<FieldEdit>)
  {
    match t
    case CharTable => [Owner(1)]
    case Transmog => [Owner(1)]
    case Inventory => [Owner(1), Ref(2, ItemGuid, true), Ref(4, ItemGuid, false)]
    case Item => [Ref(1, ItemGuid, false), Owner(3)]
    case ItemGift => [Owner(1), Ref(2, ItemGuid, false)]
    case ItemLoot => [Ref(1, ItemGuid, false), Owner(2)]
    case Mail => [Ref(1, MailId, false), Owner(6), Ref(8, TextId, false)]
    case MailItem => [Ref(1, MailId, false), Ref(2, ItemGuid, false), Owner(4)]
    case ItemText => [Ref(1, TextId, false)]
    case Character => []
    case Pet => [Ref(1, PetId, false), Owner(3)]
    case PetTable => [Ref(1, PetId, false)]
  }

  /** Success with the new line and maps, a broken line, or a search or number that stops the load. */
  datatype Outcome = Done(line: string, maps: Maps) | Broken | Stuck

  function FromEdit(e: Edit, m: Maps): (o: Outcome)
  {
    match e
    case NeverEnds => Stuck
    case Edit(ok, str) => if ok then Done(str, m) else Broken
  }

  /** changeGuid: an id is drawn for every call, whether it is used or not. */
  function GuidChanged(ids: Ids, line: string, n: nat, k: Kind, nonzero: bool, m: Maps): (o: Outcome)
  {
    var r := m.Of(k).(drawn := m.Of(k).drawn + 1);
    var text := GetNth(line, n);
    if text.None? then Stuck
    else
      var g := OldGuid(text.value);
      if g.None? then Stuck
      else if nonzero && g.value == 0 then Done(line, m.With(k, r))
      else
        var (r', id) := Registered(r, g.value, ids(k, m.Of(k).drawn));
        FromEdit(ChangeNth(line, n, Decimal(id), false, nonzero), m.With(k, r'))
  }

  function Edited(ids: Ids, owner: nat, line: string, e: FieldEdit, m: Maps): (o: Outcome)
  {
    match e
    case Owner(n) => FromEdit(ChangeNth(line, n, Decimal(owner), false, false), m)
    case Fixed(n, text) => FromEdit(ChangeNth(line, n, text, false, false), m)
    case Ref(n, k, nonzero) => GuidChanged(ids, line, n, k, nonzero, m)
  }

  /** The changes of a line, one after the other, until one fails. */
  function AllEdited(ids: Ids, owner: nat, line: string, es: seq<FieldEdit>, m: Maps): (o: Outcome)
  {
    if es == [] then Done(line, m)
    else
      var o := AllEdited(ids, owner, line, es[..|es| - 1], m);
      if o.Done? then Edited(ids, owner, o.line, es[|es| - 1], o.maps) else o
  }

  /** A line of the dump and the kind of its table. */
  datatype Line = Line(table: TableType, text: string)

  /** What a load is asked for, and what it asks the database: how names are escaped, and which are taken. */
  datatype Job = Job(owner: nat, account: nat, escape: string -> string, taken: string -> bool)

  /** The other variables of a load: the character's name, the last pet id read, the pet id to write. */
  datatype Side = Side(name: string, last: string, newPet: nat)

  function DigitPrefix(s: string): (d: string)
    ensures IsDigits(d) && d <= s
    ensures IsDigits(s) ==> d == s
  {
    if s == "" || !('0' <= s[0] <= '9') then ""
    else
      var d := DigitPrefix(s[1..]);
      assert s == [s[0]] + s[1..];
      assert IsDigits(s) ==> forall i :: 0 <= i < |s[1..]| ==> s[1..][i] == s[i + 1];
      [s[0]] + d
  }

  /** A pet id as it is kept: at most 19 characters. */
  function Cut(s: string): (c: string)
    ensures c <= s && |c| == if |s| < 19 then |s| else 19
  {
    if |s| <= 19 then s else s[..19]
  }

  /** The number of a pet id, cut to 32 bits. */
  function PetNumber(s: string): (n: nat)
  {
    Value(DigitPrefix(s)) % U32_RANGE
  }

  /** The changes of a line, with the maps and variables they start from, or the failure before any change. */
  datatype Planned = Planned(es: seq<FieldEdit>, maps: Maps, side: Side) | Refused(o: Outcome)

  function FirstEdits(job: Job): (es: seq<FieldEdit>)
  {
    [Owner(1), Fixed(2, Decimal(job.account))]
  }

  /** A character whose name is not given keeps its own, and is asked to change it if it is taken. */
  function NameEdits(job: Job, name: string): (es: seq<FieldEdit>)
  {
    if job.taken(name) then [Fixed(35, "1")] else []
  }

  function PlannedCharacter(ids: Ids, job: Job, text: string, m: Maps, side: Side): (p: Planned)
  {
    if side.name != "" then Planned(FirstEdits(job) + [Fixed(3, side.name)], m, side)
    else
      var o := AllEdited(ids, job.owner, text, FirstEdits(job), m);
      if !o.Done? then Refused(o)
      else
        var own := GetNth(o.line, 3);
        if own.None? then Refused(Stuck)
        else Planned(FirstEdits(job) + NameEdits(job, job.escape(own.value)), m, side.(name := job.escape(own.value)))
  }

  /** A pet id that differs from the last one is given a new number. */
  function PlannedPet(ids: Ids, text: string, m: Maps, side: Side): (p: Planned)
  {
    var id := GetNth(text, 1);
    if id.None? then Refused(Stuck)
    else
      var curr := Cut(id.value);
      var draw := side.last != "" && side.last != curr;
      var newPet := if draw then ids(PetId, m.pets.drawn) else side.newPet;
      var guids := if PetNumber(curr) in m.pets.guids then m.pets.guids else m.pets.guids[PetNumber(curr) := newPet];
      Planned([Fixed(1, Decimal(newPet)), Owner(3)],
              m.(pets := Renaming(guids, m.pets.drawn + if draw then 1 else 0)),
              Side(side.name, curr, newPet))
  }

  /** A row of a pet must follow the pet. */
  function PlannedPetTable(text: string, m: Maps, side: Side): (p: Planned)
  {
    var id := GetNth(text, 1);
    if id.None? then Refused(Stuck)
    else
      var n := PetNumber(Cut(id.value));
      if n !in m.pets.guids then Refused(Broken)
      else Planned([Fixed(1, Decimal(m.pets.guids[n]))], m, side.(newPet := m.pets.guids[n]))
  }

  function Planning(ids: Ids, job: Job, line: Line, m: Maps, side: Side): (p: Planned)
  {
    match line.table
    case Character => PlannedCharacter(ids, job, line.text, m, side)
    case Pet => PlannedPet(ids, line.text, m, side)
    case PetTable => PlannedPetTable(line.text, m, side)
    case _ => Planned(Plan(line.table), m, side)
  }

  /** One line: its planned changes, and the variables after it. */
  function LineEdited(ids: Ids, job: Job, line: Line, m: Maps, side: Side): (r: (Outcome, Side))
  {
    match Planning(ids, job, line, m, side)
    case Refused(o) => (o, side)
    case Planned(es, m', side') => (AllEdited(ids, job.owner, line.text, es, m'), side')
  }

  /** The lines written so far with the maps and variables, or the failure that rolled everything back. */
  datatype Load = Loaded(lines: seq<string>, maps: Maps, side: Side) | Failed | Hung

  /** The variables before the first line. */
  function Start(ids: Ids, name: string): (side: Side)
  {
    Side(name, "", ids(PetId, 0))
  }

  function LoadLines(ids: Ids, job: Job, name: string, lines: seq<Line>): (l: Load)
  {
    if lines == [] then Loaded([], NO_MAPS, Start(ids, name))
    else
      var n := |lines| - 1;
      match LoadLines(ids, job, name, lines[..n])
      case Failed => Failed
      case Hung => Hung
      case Loaded(done, maps, side) =>
        match LineEdited(ids, job, lines[n], maps, side)
        case (Done(text, maps'), side') => Loaded(done + [text], maps', side')
        case (Broken, _) => Failed
        case (Stuck, _) => Hung
  }

  /** The reader: its guid maps grow line by line. */
  class PlayerDumpReader {
    const ids: Ids
    var maps: Maps
    var name: string
    var last: string
    var newPet: nat

    constructor (ids: Ids, name: string)
      ensures this.ids == ids && maps == NO_MAPS && Variables() == Start(ids, name)
    {
      this.ids, this.name := ids, name;
      last, newPet := "", ids(PetId, 0);
      maps := NO_MAPS;
    }

    function Variables(): (side: Side)
      reads this
    {
      Side(name, last, newPet)
    }

    /** The new id of an old guid. */
    method RegisterNewGuid(k: Kind, old_: nat, drawn: nat) returns (id: nat)
      modifies `maps
      ensures (maps.Of(k), id) == Registered(old(maps).Of(k), old_, drawn)
      ensures maps == old(maps).With(k, maps.Of(k))
    {
      var r := maps.Of(k);
      if old_ in r.guids {
        return r.guids[old_];
      }
      maps := maps.With(k, r.(guids := r.guids[old_ := drawn]));
      return drawn;
    }

    /** Renames the reference in field `n`; `result` is what the edit says. */
    method ChangeGuid(line: string, n: nat, k: Kind, nonzero: bool) returns (o: Outcome)
      modifies `maps
      ensures o == GuidChanged(ids, line, n, k, nonzero, old(maps))
      ensures o.Done? ==> o.maps == maps
    {
      hide GetNth, ChangeNth, OldGuid, Decimal;
      var before := maps.Of(k);
      var newGuid := ids(k, before.drawn);
      maps := maps.With(k, before.(drawn := before.drawn + 1));
      var text := GetNth(line, n);
      if text.None? {
        return Stuck;
      }
      var g := OldGuid(text.value);
      if g.None? {
        return Stuck;
      }
      if nonzero && g.value == 0 {
        return Done(line, maps);
      }
      var id := RegisterNewGuid(k, g.value, newGuid);
      var e := ChangeNth(line, n, Decimal(id), false, nonzero);
      return FromEdit(e, maps);
    }

    /** The line loop: every line is rewritten in place, the first failure ends the load. */
    method LoadStringDump(job: Job, lines: seq<Line>) returns (l: Load)
      requires maps == NO_MAPS && Variables() == Start(ids, name)
      modifies this
      ensures l == LoadLines(ids, job, old(name), lines)
    {
      hide LineEdited;
      ghost var name0 := name;
      var done := [];
      for i := 0 to |lines|
        invariant LoadLines(ids, job, name0, lines[..i]) == Loaded(done, maps, Variables())
      {
        assert lines[..i + 1][..i] == lines[..i];
        var o := Rewrite(job, lines[i]);
        if o == Broken {
          EarlierFailureStays(ids, job, name0, lines, i + 1);
          return Failed;
        }
        if o == Stuck {
          EarlierFailureStays(ids, job, name0, lines, i + 1);
          return Hung;
        }
        done := done + [o.line];
      }
      assert lines[..|lines|] == lines;
      return Loaded(done, maps, Variables());
    }

    /** The switch over the kinds of tables. */
    method Rewrite(job: Job, line: Line) returns (o: Outcome)
      modifies this
      ensures o == LineEdited(ids, job, line, old(maps), old(Variables())).0
      ensures o.Done? ==> o.maps == maps && Variables() == LineEdited(ids, job, line, old(maps), old(Variables())).1
    {
      hide AllEdited, PlannedCharacter, PlannedPet, PlannedPetTable;
      match line.table {
        case Character => o := RewriteCharacter(job, line.text);
        case Pet => o := RewritePet(job, line.text);
        case PetTable => o := RewritePetTable(job, line.text);
        case _ => o := RewriteLine(job.owner, line.text, Plan(line.table));
      }
    }

    /** What a planned line comes to. */
    ghost function PlanResult(job: Job, text: string, p: Planned): (r: (Outcome, Side))
      reads this
    {
      match p
      case Refused(o) => (o, Variables())
      case Planned(es, m, side) => (AllEdited(ids, job.owner, text, es, m), side)
    }

    method RewriteCharacter(job: Job, text: string) returns (o: Outcome)
      modifies `maps, `name
      ensures var r := old(PlanResult(job, text, PlannedCharacter(ids, job, text, maps, Variables())));
              o == r.0 && (o.Done? ==> o.maps == maps && Variables() == r.1)
    {
      hide AllEdited;
      ghost var m := maps;
      var es := FirstEdits(job);
      o := RewriteLine(job.owner, text, es);
      if !o.Done? {
        ConcatStops(ids, job.owner, text, es, [Fixed(3, name)], m);
        return;
      }
      if name == "" {
        var own := GetNth(o.line, 3);
        if own.None? {
          return Stuck;
        }
        name := job.escape(own.value);
        o := RewriteLine(job.owner, o.line, NameEdits(job, name));
        ConcatGoesOn(ids, job.owner, text, es, NameEdits(job, name), m);
      } else {
        o := RewriteLine(job.owner, o.line, [Fixed(3, name)]);
        ConcatGoesOn(ids, job.owner, text, es, [Fixed(3, name)], m);
      }
    }

    method RewritePet(job: Job, text: string) returns (o: Outcome)
      modifies `maps, `last, `newPet
      ensures var r := old(PlanResult(job, text, PlannedPet(ids, text, maps, Variables())));
              o == r.0 && (o.Done? ==> o.maps == maps && Variables() == r.1)
    {
      hide AllEdited, Value, DigitPrefix;
      var id := GetNth(text, 1);
      if id.None? {
        return Stuck;
      }
      var curr := Cut(id.value);
      if last == "" {
        last := curr;
      }
      var pets := maps.pets;
      if last != curr {
        newPet := ids(PetId, pets.drawn);
        pets := pets.(drawn := pets.drawn + 1);
        last := curr;
      }
      if PetNumber(curr) !in pets.guids {
        pets := pets.(guids := pets.guids[PetNumber(curr) := newPet]);
      }
      maps := maps.(pets := pets);
      o := RewriteLine(job.owner, text, [Fixed(1, Decimal(newPet)), Owner(3)]);
    }

    method RewritePetTable(job: Job, text: string) returns (o: Outcome)
      modifies `maps, `newPet
      ensures var r := old(PlanResult(job, text, PlannedPetTable(text, maps, Variables())));
              o == r.0 && (o.Done? ==> o.maps == maps && Variables() == r.1)
    {
      hide AllEdited, Value, DigitPrefix;
      var id := GetNth(text, 1);
      if id.None? {
        return Stuck;
      }
      var n := PetNumber(Cut(id.value));
      if n !in maps.pets.guids {
        return Broken;
      }
      newPet := maps.pets.guids[n];
      o := RewriteLine(job.owner, text, [Fixed(1, Decimal(newPet))]);
    }

    /** The changes of one line in their order; `line` is edited in place. */
    method RewriteLine(owner: nat, text: string, es: seq<FieldEdit>) returns (o: Outcome)
      modifies `maps
      ensures o == AllEdited(ids, owner, text, es, old(maps))
      ensures o.Done? ==> o.maps == maps
    {
      hide AllEdited, Edited;
      var line := text;
      NothingEdited(ids, owner, text, es, maps);
      for i := 0 to |es|
        invariant AllEdited(ids, owner, text, es[..i], old(maps)) == Done(line, maps)
      {
        EditStep(ids, owner, text, es, i, old(maps));
        o := ApplyEdit(owner, line, es[i]);
        if !o.Done? {
          EarlierEditFailureStays(ids, owner, text, es, i + 1, old(maps));
          return;
        }
        line := o.line;
      }
      assert es[..|es|] == es;
      o := Done(line, maps);
    }

    method ApplyEdit(owner: nat, line: string, e: FieldEdit) returns (o: Outcome)
      modifies `maps
      ensures o == Edited(ids, owner, line, e, old(maps))
      ensures o.Done? ==> o.maps == maps
    {
      hide GuidChanged, ChangeNth, Decimal;
      match e {
        case Owner(n) => o := FromEdit(ChangeNth(line, n, Decimal(owner), false, false), maps);
        case Fixed(n, text) => o := FromEdit(ChangeNth(line, n, text, false, false), maps);
        case Ref(n, k, nonzero) => o := ChangeGuid(line, n, k, nonzero);
      }
    }
  }

  lemma NothingEdited(ids: Ids, owner: nat, line: string, es: seq<FieldEdit>, m: Maps)
    ensures AllEdited(ids, owner, line, es[..0], m) == Done(line, m)
  {
  }

  lemma EditStep(ids: Ids, owner: nat, line: string, es: seq<FieldEdit>, i: nat, m: Maps)
    requires i < |es|
    ensures var o := AllEdited(ids, owner, line, es[..i], m);
            AllEdited(ids, owner, line, es[..i + 1], m) ==
            if o.Done? then Edited(ids, owner, o.line, es[i], o.maps) else o
  {
    hide Edited;
    assert es[..i + 1][..i] == es[..i];
  }

  lemma {:induction false} EarlierEditFailureStays(ids: Ids, owner: nat, line: string, es: seq<FieldEdit>, n: nat, m: Maps)
    requires n <= |es| && !AllEdited(ids, owner, line, es[..n], m).Done?
    ensures AllEdited(ids, owner, line, es, m) == AllEdited(ids, owner, line, es[..n], m)
    decreases |es|
  {
    if n == |es| {
      assert es[..n] == es;
    } else {
      assert es[..|es| - 1][..n] == es[..n];
      EarlierEditFailureStays(ids, owner, line, es[..|es| - 1], n, m);
    }
  }

  lemma {:induction false} EarlierFailureStays(ids: Ids, job: Job, name: string, lines: seq<Line>, n: nat)
    requires n <= |lines| && !LoadLines(ids, job, name, lines[..n]).Loaded?
    ensures LoadLines(ids, job, name, lines) == LoadLines(ids, job, name, lines[..n])
    decreases |lines|
  {
    hide LineEdited;
    if n == |lines| {
      assert lines[..n] == lines;
    } else {
      assert lines[..|lines| - 1][..n] == lines[..n];
      EarlierFailureStays(ids, job, name, lines[..|lines| - 1], n);
    }
  }

  /** Changes made in two goes. */
  lemma {:induction false} AllEditedConcat(ids: Ids, owner: nat, line: string, a: seq<FieldEdit>, b: seq<FieldEdit>, m: Maps)
    ensures var o := AllEdited(ids, owner, line, a, m);
            AllEdited(ids, owner, line, a + b, m) == if o.Done? then AllEdited(ids, owner, o.line, b, o.maps) else o
    decreases |b|
  {
    hide Edited;
    if b == [] {
      assert a + b == a;
    } else {
      var n := |b| - 1;
      assert (a + b)[..|a + b| - 1] == a + b[..n] && (a + b)[|a + b| - 1] == b[n];
      AllEditedConcat(ids, owner, line, a, b[..n], m);
    }
  }

  lemma ConcatGoesOn(ids: Ids, owner: nat, line: string, a: seq<FieldEdit>, b: seq<FieldEdit>, m: Maps)
    requires AllEdited(ids, owner, line, a, m).Done?
    ensures var o := AllEdited(ids, owner, line, a, m);
            AllEdited(ids, owner, line, a + b, m) == AllEdited(ids, owner, o.line, b, o.maps)
  {
    hide AllEdited;
    AllEditedConcat(ids, owner, line, a, b, m);
  }

  lemma ConcatStops(ids: Ids, owner: nat, line: string, a: seq<FieldEdit>, b: seq<FieldEdit>, m: Maps)
    requires !AllEdited(ids, owner, line, a, m).Done?
    ensures AllEdited(ids, owner, line, a + b, m) == AllEdited(ids, owner, line, a, m)
  {
    hide AllEdited;
    AllEditedConcat(ids, owner, line, a, b, m);
  }

  // ---------------------------------------------------------------------------
  // The maps over a whole load
  // ---------------------------------------------------------------------------

  /** The next id is new, and drawing it keeps what was drawn. */
  lemma DrawNext(ids: Ids, k: Kind, n: nat, id: nat, limit: nat)
    requires FreshFor(ids, k, limit) && n < limit
    ensures Drawn(ids, k, n, id) ==> Drawn(ids, k, n + 1, id) && id != ids(k, n)
    ensures Drawn(ids, k, n + 1, ids(k, n))
  {
    if Drawn(ids, k, n, id) {
      var i: nat :| i < n && id == ids(k, i);
    }
  }

  /** Drawing an id: the map stays as it was, and the id is new to it. */
  lemma DrawingOk(ids: Ids, k: Kind, r: Renaming, limit: nat)
    requires FreshFor(ids, k, limit) && RenamingOk(ids, k, r) && r.drawn < limit
    ensures RenamingOk(ids, k, r.(drawn := r.drawn + 1)) && Drawn(ids, k, r.drawn + 1, ids(k, r.drawn))
    ensures forall g :: g in r.guids ==> r.guids[g] != ids(k, r.drawn)
  {
    hide Drawn, FreshFor;
    DrawNext(ids, k, r.drawn, 0, limit);
    forall g | g in r.guids
      ensures Drawn(ids, k, r.drawn + 1, r.guids[g]) && r.guids[g] != ids(k, r.drawn)
    {
      DrawNext(ids, k, r.drawn, r.guids[g], limit);
    }
  }

  lemma RegisteredOk(ids: Ids, k: Kind, r: Renaming, old_: nat, limit: nat)
    requires FreshFor(ids, k, limit) && RenamingOk(ids, k, r) && r.drawn < limit
    ensures RenamingOk(ids, k, r.(drawn := r.drawn + 1))
    ensures var (r', id) := Registered(r.(drawn := r.drawn + 1), old_, ids(k, r.drawn));
            && RenamingOk(ids, k, r') && old_ in r'.guids && r'.guids[old_] == id
            && (forall g :: g in r.guids ==> g in r'.guids && r'.guids[g] == r.guids[g])
  {
    hide Drawn, FreshFor;
    DrawingOk(ids, k, r, limit);
  }

  /** Replacing one kind's map by a larger one. */
  lemma WithOk(ids: Ids, m: Maps, k: Kind, r: Renaming, n: nat)
    requires MapsOk(ids, m) && (k != PetId ==> RenamingOk(ids, k, r)) && Within(m, n) && r.drawn <= n + 1
    requires forall g :: g in m.Of(k).guids ==> g in r.guids && r.guids[g] == m.Of(k).guids[g]
    ensures MapsOk(ids, m.With(k, r)) && Grows(m, m.With(k, r)) && Within(m.With(k, r), n + 1)
  {
    hide RenamingOk;
    forall j | j != PetId
      ensures RenamingOk(ids, j, m.With(k, r).Of(j))
    {
      assert j != k ==> RenamingOk(ids, j, m.Of(j));
    }
  }

  /** The change does not go through the map of pets. */
  predicate NoPet(e: FieldEdit) {
    e.Ref? ==> e.kind != PetId
  }

  predicate NoPets(es: seq<FieldEdit>) {
    forall e :: e in es ==> NoPet(e)
  }

  /** Whatever the line says, a change keeps the maps injective and only adds to them. */
  lemma EditedKeepsMaps(ids: Ids, owner: nat, line: string, e: FieldEdit, m: Maps, n: nat, limit: nat)
    requires AllFresh(ids, limit) && MapsOk(ids, m) && Within(m, n) && n < limit && NoPet(e)
    ensures var o := Edited(ids, owner, line, e, m);
            o.Done? ==> o.maps.pets == m.pets && MapsOk(ids, o.maps) && Grows(m, o.maps) && Within(o.maps, n + 1)
  {
    hide MapsOk, Grows, OldGuid, GetNth, ChangeNth, AllFresh, RenamingOk, Registered, FreshFor;
    match e
    case Owner(_) =>
      GrowsSelf(m);
    case Fixed(_, _) =>
      GrowsSelf(m);
    case Ref(f, k, nonzero) =>
      KindOk(ids, m, k, limit);
      RegisteredOk(ids, k, m.Of(k), 0, limit);
      WithOk(ids, m, k, m.Of(k).(drawn := m.Of(k).drawn + 1), n);
      var text := GetNth(line, f);
      if text.Some? && OldGuid(text.value).Some? {
        var g := OldGuid(text.value).value;
        RegisteredOk(ids, k, m.Of(k), g, limit);
        RegisteredDraws(m.Of(k).(drawn := m.Of(k).drawn + 1), g, ids(k, m.Of(k).drawn));
        WithOk(ids, m, k, Registered(m.Of(k).(drawn := m.Of(k).drawn + 1), g, ids(k, m.Of(k).drawn)).0, n);
      }
  }

  lemma RegisteredDraws(r: Renaming, old_: nat, id: nat)
    ensures Registered(r, old_, id).0.drawn == r.drawn
  {
  }

  lemma KindOk(ids: Ids, m: Maps, k: Kind, limit: nat)
    requires MapsOk(ids, m) && AllFresh(ids, limit) && k != PetId
    ensures RenamingOk(ids, k, m.Of(k)) && FreshFor(ids, k, limit)
  {
  }

  lemma GrowsTransitive(a: Maps, b: Maps, c: Maps)
    requires Grows(a, b) && Grows(b, c)
    ensures Grows(a, c)
  {
  }

  lemma {:induction false} AllEditedKeepsMaps(
    ids: Ids, owner: nat, line: string, es: seq<FieldEdit>, m: Maps, n: nat, limit: nat)
    requires AllFresh(ids, limit) && MapsOk(ids, m) && Within(m, n) && n + |es| <= limit && NoPets(es)
    ensures var o := AllEdited(ids, owner, line, es, m);
            o.Done? ==> o.maps.pets == m.pets && MapsOk(ids, o.maps) && Grows(m, o.maps) && Within(o.maps, n + |es|)
  {
    hide MapsOk, Grows, AllFresh, Edited, Within;
    if es == [] {
      GrowsSelf(m);
    } else {
      var o := AllEdited(ids, owner, line, es[..|es| - 1], m);
      AllEditedKeepsMaps(ids, owner, line, es[..|es| - 1], m, n, limit);
      if o.Done? {
        EditedKeepsMaps(ids, owner, o.line, es[|es| - 1], o.maps, n + |es| - 1, limit);
        var p := Edited(ids, owner, o.line, es[|es| - 1], o.maps);
        if p.Done? {
          GrowsTransitive(m, o.maps, p.maps);
        }
      }
    }
  }

  lemma GrowsSelf(m: Maps)
    ensures Grows(m, m)
  {
  }

  lemma PlanShort(t: TableType)
    ensures |Plan(t)| <= 3 && (t != Pet && t != PetTable ==> NoPets(Plan(t)))
  {
    var es := Plan(t);
    assert t != Pet && t != PetTable ==> forall i :: 0 <= i < |es| ==> NoPet(es[i]);
  }

  /** Planning draws at most one pet id and leaves the other maps alone; no change goes through the map of pets. */
  lemma PlanningOk(ids: Ids, job: Job, line: Line, m: Maps, side: Side, n: nat)
    requires MapsOk(ids, m) && Within(m, n)
    ensures var p := Planning(ids, job, line, m, side);
            p.Planned? ==>
              |p.es| <= 3 && NoPets(p.es) && MapsOk(ids, p.maps) && Grows(m, p.maps) && Within(p.maps, n + 1)
  {
    hide RenamingOk, AllEdited, Decimal, PetNumber, GetNth, MapsOk;
    PlanShort(line.table);
    GrowsSelf(m);
    var p := Planning(ids, job, line, m, side);
    hide Plan;
    if line.table.Pet? && p.Planned? {
      OtherMapsOk(ids, m, p.maps.pets);
    }
  }

  lemma OtherMapsOk(ids: Ids, m: Maps, pets: Renaming)
    requires MapsOk(ids, m)
    ensures MapsOk(ids, m.(pets := pets))
  {
    hide RenamingOk;
    var t := m.(pets := pets);
    forall k | k != PetId
      ensures RenamingOk(ids, k, t.Of(k))
    {
      assert t.Of(k) == m.Of(k);
    }
  }

  lemma LineKeepsMaps(ids: Ids, job: Job, line: Line, m: Maps, side: Side, n: nat, limit: nat)
    requires AllFresh(ids, limit) && MapsOk(ids, m) && Within(m, n) && n + 4 <= limit
    ensures var o := LineEdited(ids, job, line, m, side).0;
            o.Done? ==> MapsOk(ids, o.maps) && Grows(m, o.maps) && Within(o.maps, n + 4)
  {
    hide MapsOk, Grows, AllFresh, Within, AllEdited, Planning;
    PlanningOk(ids, job, line, m, side, n);
    var p := Planning(ids, job, line, m, side);
    if p.Planned? {
      AllEditedKeepsMaps(ids, job.owner, line.text, p.es, p.maps, n + 1, limit);
      var o := AllEdited(ids, job.owner, line.text, p.es, p.maps);
      if o.Done? {
        GrowsTransitive(m, p.maps, o.maps);
        WithinMore(o.maps, n + 1 + |p.es|, n + 4);
      }
    } else {
      RefusedIsFailure(ids, job, line, m, side);
    }
  }

  lemma RefusedIsFailure(ids: Ids, job: Job, line: Line, m: Maps, side: Side)
    ensures var p := Planning(ids, job, line, m, side); p.Refused? ==> !p.o.Done?
  {
    hide AllEdited, GetNth;
  }

  /**
   Over a whole load, whatever the lines, the maps of items, mails and texts stay injective into
   fresh ids and all maps only grow. A line draws at most four ids of a kind.
   */
  lemma {:induction false} LoadKeepsMaps(ids: Ids, job: Job, name: string, lines: seq<Line>, n: nat, limit: nat)
    requires AllFresh(ids, limit) && n <= |lines| && 4 * |lines| + 1 <= limit && LoadLines(ids, job, name, lines).Loaded?
    ensures MapsOk(ids, LoadLines(ids, job, name, lines).maps)
    ensures Within(LoadLines(ids, job, name, lines).maps, 4 * |lines| + 1)
    ensures LoadLines(ids, job, name, lines[..n]).Loaded?
    ensures Grows(LoadLines(ids, job, name, lines[..n]).maps, LoadLines(ids, job, name, lines).maps)
    decreases |lines|
  {
    hide Grows, AllFresh, LineEdited, Within, MapsOk;
    if n == |lines| {
      assert lines[..n] == lines;
      GrowsSelf(LoadLines(ids, job, name, lines).maps);
    }
    if lines == [] {
      EmptyMapsOk(ids);
    } else {
      var k := |lines| - 1;
      var before := LoadLines(ids, job, name, lines[..k]);
      LoadKeepsMaps(ids, job, name, lines[..k], if n <= k then n else k, limit);
      LineKeepsMaps(ids, job, lines[k], before.maps, before.side, 4 * k + 1, limit);
      if n <= k {
        assert lines[..k][..n] == lines[..n];
        GrowsTransitive(LoadLines(ids, job, name, lines[..n]).maps, before.maps, LoadLines(ids, job, name, lines).maps);
      }
    }
  }

  /** The map of pets is injective into drawn ids; the last pet read is in it, and before the first it is empty. */
  ghost predicate PetsOk(ids: Ids, m: Maps, side: Side) {
    && RenamingOk(ids, PetId, m.pets)
    && (side.last == "" ==> m.pets.guids == map[] && m.pets.drawn == 1 && side.newPet == ids(PetId, 0))
    && (side.last != "" ==> PetNumber(side.last) in m.pets.guids)
  }

  /** A pet line with an id, new or not, keeps the map of pets injective. */
  lemma PetKeepsPets(ids: Ids, text: string, m: Maps, side: Side, limit: nat)
    requires FreshFor(ids, PetId, limit) && m.pets.drawn < limit && PetsOk(ids, m, side) && GetNth(text, 1) != Some("")
    ensures var p := PlannedPet(ids, text, m, side); p.Planned? ==> PetsOk(ids, p.maps, p.side)
  {
    hide FreshFor, Drawn, GetNth, Value, DigitPrefix, PetNumber, Decimal;
    DrawingOk(ids, PetId, m.pets, limit);
    FirstDrawn(ids);
  }

  /**
   The exact condition: a pet line keeps the map injective unless it brings a new pet, draws no id
   for it, and the id to write already belongs to another pet.
   */
  lemma PetKeepsPetsIff(ids: Ids, text: string, m: Maps, side: Side, limit: nat)
    requires FreshFor(ids, PetId, limit) && m.pets.drawn < limit && RenamingOk(ids, PetId, m.pets)
    requires Drawn(ids, PetId, m.pets.drawn, side.newPet) && GetNth(text, 1).Some?
    ensures var id := Cut(GetNth(text, 1).value);
            RenamingOk(ids, PetId, PlannedPet(ids, text, m, side).maps.pets) <==>
            || PetNumber(id) in m.pets.guids
            || (side.last != "" && side.last != id)
            || side.newPet !in m.pets.guids.Values
  {
    hide FreshFor, Drawn, GetNth, PetNumber, Decimal, Cut;
    DrawingOk(ids, PetId, m.pets, limit);
    DrawNext(ids, PetId, m.pets.drawn, side.newPet, limit);
    var n, r := PetNumber(Cut(GetNth(text, 1).value)), PlannedPet(ids, text, m, side).maps.pets;
    if n !in m.pets.guids && side.newPet in m.pets.guids.Values {
      var g :| g in m.pets.guids && m.pets.guids[g] == side.newPet;
      assert g in r.guids && n in r.guids && g != n;
    }
  }

  lemma FirstDrawn(ids: Ids)
    ensures Drawn(ids, PetId, 1, ids(PetId, 0))
  {
  }

  lemma LineKeepsPets(ids: Ids, job: Job, line: Line, m: Maps, side: Side, n: nat, limit: nat)
    requires AllFresh(ids, limit) && MapsOk(ids, m) && Within(m, n) && n + 4 <= limit && PetsOk(ids, m, side)
    requires line.table.Pet? ==> GetNth(line.text, 1) != Some("")
    ensures var (o, side') := LineEdited(ids, job, line, m, side); o.Done? ==> PetsOk(ids, o.maps, side')
  {
    hide MapsOk, Grows, AllEdited, RenamingOk, GetNth, PetNumber;
    PlanningOk(ids, job, line, m, side, n);
    RefusedIsFailure(ids, job, line, m, side);
    assert FreshFor(ids, PetId, limit);
    hide AllFresh, FreshFor;
    var p := Planning(ids, job, line, m, side);
    if line.table.Pet? {
      PetKeepsPets(ids, line.text, m, side, limit);
    }
    if p.Planned? {
      assert PetsOk(ids, p.maps, p.side);
      AllEditedKeepsMaps(ids, job.owner, line.text, p.es, p.maps, n + 1, limit);
    }
  }

  /** Over a whole load in which every pet line has an id, the map of pets is injective as well. */
  lemma {:induction false} LoadKeepsPets(ids: Ids, job: Job, name: string, lines: seq<Line>, limit: nat)
    requires AllFresh(ids, limit) && 4 * |lines| + 1 <= limit && LoadLines(ids, job, name, lines).Loaded?
    requires forall i :: 0 <= i < |lines| && lines[i].table.Pet? ==> GetNth(lines[i].text, 1) != Some("")
    ensures PetsOk(ids, LoadLines(ids, job, name, lines).maps, LoadLines(ids, job, name, lines).side)
    decreases |lines|
  {
    hide AllFresh, LineEdited, Within, MapsOk, PetsOk, GetNth, Grows;
    if lines == [] {
      NoPetsYet(ids, name);
    } else {
      var k := |lines| - 1;
      LoadKeepsMaps(ids, job, name, lines, k, limit);
      var before := LoadLines(ids, job, name, lines[..k]);
      LoadKeepsMaps(ids, job, name, lines[..k], k, limit);
      LoadKeepsPets(ids, job, name, lines[..k], limit);
      LineKeepsPets(ids, job, lines[k], before.maps, before.side, 4 * k + 1, limit);
    }
  }

  lemma NoPetsYet(ids: Ids, name: string)
    ensures PetsOk(ids, NO_MAPS, Start(ids, name))
  {
  }

  lemma WithinMore(m: Maps, n: nat, k: nat)
    requires Within(m, n) && n <= k
    ensures Within(m, k)
  {
  }

  lemma EmptyMapsOk(ids: Ids)
    ensures MapsOk(ids, NO_MAPS) && Within(NO_MAPS, 1)
  {
  }
}
