/**
 When a load gives two pets one number: the exact condition on the lines of the dump.
 */
module DumpPets {
  import opened Options
  import opened DumpText
  import opened DumpLoad

  // ---------------------------------------------------------------------------
  // What the lines say
  // ---------------------------------------------------------------------------

  /** The pet id that a line starts with, as it is kept. */
  function PetIdOf(line: Line): (id: string)
  {
    var id := GetNth(line.text, 1);
    if id.Some? then Cut(id.value) else ""
  }

  /** The numbers of the pets in the lines. */
  function Known(lines: seq<Line>): (ns: set<nat>)
  {
    if lines == [] then {}
    else
      var n := |lines| - 1;
      Known(lines[..n]) + if lines[n].table.Pet? then {PetNumber(PetIdOf(lines[n]))} else {}
  }

  /** The id of the last pet, empty if there is none. */
  function LastPet(lines: seq<Line>): (id: string)
  {
    if lines == [] then ""
    else
      var n := |lines| - 1;
      if lines[n].table.Pet? then PetIdOf(lines[n]) else LastPet(lines[..n])
  }

  /** A pet with this id is given a new number behind the lines. */
  predicate Draws(lines: seq<Line>, id: string) {
    LastPet(lines) != "" && LastPet(lines) != id
  }

  /**
   The number to be written next belongs to no pet yet: there is none, or the last pet was known
   already and drew a number in vain, and no row of a pet came in between.
   */
  predicate Spare(lines: seq<Line>) {
    if Known(lines) == {} then true
    else
      var n := |lines| - 1;
      var before, line := lines[..n], lines[n];
      match line.table
      case Pet => PetNumber(PetIdOf(line)) in Known(before) && (Draws(before, PetIdOf(line)) || Spare(before))
      case PetTable => false
      case _ => Spare(before)
  }

  /** The last line brings a new pet, draws no number for it, and there is none to spare. */
  predicate Shares(lines: seq<Line>)
    requires lines != []
  {
    var n := |lines| - 1;
    var before, line := lines[..n], lines[n];
    line.table.Pet? && PetNumber(PetIdOf(line)) !in Known(before) && !Draws(before, PetIdOf(line)) && !Spare(before)
  }

  predicate SomeShared(lines: seq<Line>) {
    exists n :: 1 <= n <= |lines| && Shares(lines[..n])
  }

  lemma SomeSharedStep(lines: seq<Line>)
    requires lines != []
    ensures SomeShared(lines) <==> SomeShared(lines[..|lines| - 1]) || Shares(lines)
  {
    hide Shares;
    var k := |lines| - 1;
    assert lines[..|lines|] == lines;
    forall n | 1 <= n <= k
      ensures lines[..k][..n] == lines[..n]
    {
    }
    if n :| 1 <= n <= k && Shares(lines[..k][..n]) {
      assert Shares(lines[..n]);
    }
  }

  // ---------------------------------------------------------------------------
  // The reader keeps track
  // ---------------------------------------------------------------------------

  /** Different pets have different numbers. */
  ghost predicate Distinct(r: Renaming) {
    forall g, h :: g in r.guids && h in r.guids && g != h ==> r.guids[g] != r.guids[h]
  }

  ghost predicate OnlyDrawn(ids: Ids, r: Renaming) {
    forall g :: g in r.guids ==> Drawn(ids, PetId, r.drawn, r.guids[g])
  }

  /** The reader's variables are what the lines say. */
  ghost predicate Tracks(ids: Ids, m: Maps, side: Side, lines: seq<Line>) {
    && m.pets.guids.Keys == Known(lines) && side.last == LastPet(lines)
    && Drawn(ids, PetId, m.pets.drawn, side.newPet) && OnlyDrawn(ids, m.pets)
    && (side.newPet in m.pets.guids.Values <==> !Spare(lines))
  }

  /** Numbers drawn before stay drawn, and the next one is new. */
  lemma NextIsNew(ids: Ids, r: Renaming, newPet: nat, limit: nat)
    requires FreshFor(ids, PetId, limit) && r.drawn < limit && OnlyDrawn(ids, r) && Drawn(ids, PetId, r.drawn, newPet)
    ensures OnlyDrawn(ids, r.(drawn := r.drawn + 1)) && ids(PetId, r.drawn) !in r.guids.Values
    ensures Drawn(ids, PetId, r.drawn + 1, newPet) && Drawn(ids, PetId, r.drawn + 1, ids(PetId, r.drawn))
  {
    hide FreshFor, Drawn;
    DrawNext(ids, PetId, r.drawn, newPet, limit);
    forall g | g in r.guids
      ensures Drawn(ids, PetId, r.drawn + 1, r.guids[g]) && r.guids[g] != ids(PetId, r.drawn)
    {
      DrawNext(ids, PetId, r.drawn, r.guids[g], limit);
    }
  }

  /** The numbers and the next one behind a pet: one more pet, or a new number for nothing. */
  lemma Inserted(r: Renaming, n: nat, newPet: nat)
    requires n !in r.guids
    ensures var t := r.(guids := r.guids[n := newPet]);
            newPet in t.guids.Values && (Distinct(t) <==> Distinct(r) && newPet !in r.guids.Values)
  {
    var t := r.(guids := r.guids[n := newPet]);
    assert t.guids[n] == newPet;
    if newPet in r.guids.Values {
      var g :| g in r.guids && r.guids[g] == newPet;
      assert g in t.guids && n in t.guids && t.guids[g] == t.guids[n];
    }
    forall g, h | Distinct(t) && g in r.guids && h in r.guids && g != h
      ensures r.guids[g] != r.guids[h]
    {
      assert t.guids[g] == r.guids[g] && t.guids[h] == r.guids[h];
    }
  }

  /** What a pet line does to the numbers, in terms of the reader's variables. */
  lemma PetMoves(ids: Ids, text: string, m: Maps, side: Side, limit: nat)
    requires FreshFor(ids, PetId, limit) && m.pets.drawn < limit && GetNth(text, 1).Some?
    requires Drawn(ids, PetId, m.pets.drawn, side.newPet) && OnlyDrawn(ids, m.pets)
    ensures var id := Cut(GetNth(text, 1).value);
            var n, draws := PetNumber(id), side.last != "" && side.last != id;
            var p := PlannedPet(ids, text, m, side);
            && p.maps.pets.guids.Keys == m.pets.guids.Keys + {n} && p.side.last == id
            && Drawn(ids, PetId, p.maps.pets.drawn, p.side.newPet) && OnlyDrawn(ids, p.maps.pets)
            && (p.side.newPet in p.maps.pets.guids.Values <==>
                n !in m.pets.guids || (!draws && side.newPet in m.pets.guids.Values))
            && (Distinct(p.maps.pets) <==>
                Distinct(m.pets) && (n in m.pets.guids || draws || side.newPet !in m.pets.guids.Values))
  {
    hide FreshFor, Drawn, GetNth, PetNumber, Decimal, Cut;
    NextIsNew(ids, m.pets, side.newPet, limit);
    var id := Cut(GetNth(text, 1).value);
    var p := PlannedPet(ids, text, m, side);
    if PetNumber(id) !in m.pets.guids {
      Inserted(m.pets, PetNumber(id), p.side.newPet);
    }
  }

  lemma SpareBehindPet(lines: seq<Line>)
    requires lines != [] && lines[|lines| - 1].table.Pet?
    ensures var n := |lines| - 1;
            var before, id := lines[..n], PetIdOf(lines[n]);
            && Known(lines) == Known(before) + {PetNumber(id)} && LastPet(lines) == id
            && (Spare(lines) <==> PetNumber(id) in Known(before) && (Draws(before, id) || Spare(before)))
            && (Shares(lines) <==> PetNumber(id) !in Known(before) && !Draws(before, id) && !Spare(before))
  {
    hide PetIdOf, PetNumber;
    assert PetNumber(PetIdOf(lines[|lines| - 1])) in Known(lines);
  }

  lemma PetTracked(ids: Ids, lines: seq<Line>, m: Maps, side: Side, limit: nat)
    requires FreshFor(ids, PetId, limit) && m.pets.drawn < limit
    requires lines != [] && lines[|lines| - 1].table.Pet? && Tracks(ids, m, side, lines[..|lines| - 1])
    ensures var p := PlannedPet(ids, lines[|lines| - 1].text, m, side);
            p.Planned? ==>
              Tracks(ids, p.maps, p.side, lines) && (Distinct(p.maps.pets) <==> Distinct(m.pets) && !Shares(lines))
  {
    var n := |lines| - 1;
    SpareBehindPet(lines);
    hide FreshFor, Drawn, GetNth, PetNumber, Decimal, Known, LastPet, Spare, Shares, Cut, Distinct, OnlyDrawn;
    if GetNth(lines[n].text, 1).Some? {
      PetMoves(ids, lines[n].text, m, side, limit);
    }
  }

  lemma SpareElsewhere(lines: seq<Line>)
    requires lines != [] && !lines[|lines| - 1].table.Pet?
    ensures var n := |lines| - 1;
            var before := lines[..n];
            && Known(lines) == Known(before) && LastPet(lines) == LastPet(before) && !Shares(lines)
            && (Spare(lines) <==> Known(before) == {} || (!lines[n].table.PetTable? && Spare(before)))
  {
    hide PetIdOf, PetNumber;
  }

  /** Lines of other tables and rows of a pet leave the numbers alone; a row of a pet takes the pet's number along. */
  lemma OthersTracked(ids: Ids, job: Job, lines: seq<Line>, m: Maps, side: Side)
    requires lines != [] && !lines[|lines| - 1].table.Pet? && Tracks(ids, m, side, lines[..|lines| - 1])
    ensures var p := Planning(ids, job, lines[|lines| - 1], m, side);
            p.Planned? ==>
              Tracks(ids, p.maps, p.side, lines) && (Distinct(p.maps.pets) <==> Distinct(m.pets) && !Shares(lines))
  {
    SpareElsewhere(lines);
    hide Drawn, GetNth, PetNumber, Decimal, Known, LastPet, Spare, Shares, Cut, Distinct, Plan, AllEdited;
    var p := Planning(ids, job, lines[|lines| - 1], m, side);
    if p.Planned? {
      assert p.maps.pets == m.pets;
      assert Known(lines[..|lines| - 1]) == {} ==> side.newPet !in m.pets.guids.Values by {
        assert m.pets.guids.Keys == {} ==> m.pets.guids == map[];
      }
    }
  }

  lemma PlanningTracked(ids: Ids, job: Job, lines: seq<Line>, m: Maps, side: Side, limit: nat)
    requires FreshFor(ids, PetId, limit) && m.pets.drawn < limit
    requires lines != [] && Tracks(ids, m, side, lines[..|lines| - 1])
    ensures var p := Planning(ids, job, lines[|lines| - 1], m, side);
            p.Planned? ==>
              Tracks(ids, p.maps, p.side, lines) && (Distinct(p.maps.pets) <==> Distinct(m.pets) && !Shares(lines))
  {
    hide FreshFor, Tracks, Shares, Distinct, PlannedPet, PlannedCharacter, PlannedPetTable, Plan;
    if lines[|lines| - 1].table.Pet? {
      PetTracked(ids, lines, m, side, limit);
    } else {
      OthersTracked(ids, job, lines, m, side);
    }
  }

  lemma LineTracked(ids: Ids, job: Job, lines: seq<Line>, m: Maps, side: Side, n: nat, limit: nat)
    requires AllFresh(ids, limit) && MapsOk(ids, m) && Within(m, n) && n + 4 <= limit
    requires lines != [] && Tracks(ids, m, side, lines[..|lines| - 1])
    ensures var (o, side') := LineEdited(ids, job, lines[|lines| - 1], m, side);
            o.Done? ==> Tracks(ids, o.maps, side', lines) && (Distinct(o.maps.pets) <==> Distinct(m.pets) && !Shares(lines))
  {
    assert FreshFor(ids, PetId, limit) && m.pets.drawn < limit;
    hide AllFresh, FreshFor, MapsOk, Grows, Planning, AllEdited, Shares, Distinct, Known, LastPet, Spare, Drawn, OnlyDrawn;
    var line := lines[|lines| - 1];
    PlanningTracked(ids, job, lines, m, side, limit);
    PlanningOk(ids, job, line, m, side, n);
    RefusedIsFailure(ids, job, line, m, side);
    var p := Planning(ids, job, line, m, side);
    if p.Planned? {
      AllEditedKeepsMaps(ids, job.owner, line.text, p.es, p.maps, n + 1, limit);
    }
  }

  // ---------------------------------------------------------------------------
  // The whole load
  // ---------------------------------------------------------------------------

  lemma NothingTracked(ids: Ids, name: string)
    ensures Tracks(ids, NO_MAPS, Start(ids, name), []) && Distinct(NO_MAPS.pets) && !SomeShared([])
  {
    FirstDrawn(ids);
  }

  lemma LoadStepIs(ids: Ids, job: Job, name: string, lines: seq<Line>)
    requires lines != [] && LoadLines(ids, job, name, lines).Loaded?
    ensures var n := |lines| - 1;
            var before := LoadLines(ids, job, name, lines[..n]);
            && before.Loaded?
            && var (o, side') := LineEdited(ids, job, lines[n], before.maps, before.side);
               o.Done? && LoadLines(ids, job, name, lines).maps == o.maps && LoadLines(ids, job, name, lines).side == side'
  {
    hide LineEdited;
  }

  lemma {:induction false} LoadTracks(ids: Ids, job: Job, name: string, lines: seq<Line>, limit: nat)
    requires AllFresh(ids, limit) && 4 * |lines| + 1 <= limit && LoadLines(ids, job, name, lines).Loaded?
    ensures var l := LoadLines(ids, job, name, lines);
            Tracks(ids, l.maps, l.side, lines) && (Distinct(l.maps.pets) <==> !SomeShared(lines))
    decreases |lines|
  {
    hide *;
    if lines == [] {
      NothingTracked(ids, name);
      NothingLoaded(ids, job, name);
    } else {
      var k := |lines| - 1;
      LoadStepIs(ids, job, name, lines);
      LoadKeepsMaps(ids, job, name, lines[..k], k, limit);
      LoadTracks(ids, job, name, lines[..k], limit);
      var before := LoadLines(ids, job, name, lines[..k]);
      LineTracked(ids, job, lines, before.maps, before.side, 4 * k + 1, limit);
      SomeSharedStep(lines);
    }
  }

  lemma NothingLoaded(ids: Ids, job: Job, name: string)
    ensures LoadLines(ids, job, name, []) == Loaded([], NO_MAPS, Start(ids, name))
  {
  }

  /** A load that succeeds keeps the map of pets injective exactly when no pet shares a number. */
  lemma LoadKeepsPetsIff(ids: Ids, job: Job, name: string, lines: seq<Line>, limit: nat)
    requires AllFresh(ids, limit) && 4 * |lines| + 1 <= limit && LoadLines(ids, job, name, lines).Loaded?
    ensures RenamingOk(ids, PetId, LoadLines(ids, job, name, lines).maps.pets) <==> !SomeShared(lines)
  {
    hide AllFresh, LoadLines, SomeShared, Drawn;
    LoadTracks(ids, job, name, lines, limit);
  }

  // ---------------------------------------------------------------------------
  // Where it happens
  // ---------------------------------------------------------------------------

  /** Line `j` is the last pet among the lines. */
  predicate IsLastPet(lines: seq<Line>, j: nat) {
    j < |lines| && lines[j].table.Pet? && forall i :: j < i < |lines| ==> !lines[i].table.Pet?
  }

  lemma {:induction false} LastPetStands(lines: seq<Line>) returns (j: nat)
    requires Known(lines) != {}
    ensures IsLastPet(lines, j) && PetIdOf(lines[j]) == LastPet(lines)
    decreases |lines|
  {
    hide PetIdOf, PetNumber;
    var n := |lines| - 1;
    if lines[n].table.Pet? {
      j := n;
    } else {
      j := LastPetStands(lines[..n]);
      assert lines[..n][j] == lines[j];
    }
  }

  lemma {:induction false} LastPetKnown(lines: seq<Line>)
    ensures LastPet(lines) != "" ==> PetNumber(LastPet(lines)) in Known(lines)
    decreases |lines|
  {
    hide PetIdOf, PetNumber;
    if lines != [] {
      LastPetKnown(lines[..|lines| - 1]);
    }
  }

  /** Only the pet right behind one with an empty id can share a number. */
  lemma SharedBehindEmptyId(lines: seq<Line>) returns (j: nat)
    requires lines != [] && Shares(lines)
    ensures IsLastPet(lines[..|lines| - 1], j) && PetIdOf(lines[j]) == ""
  {
    var before := lines[..|lines| - 1];
    hide PetIdOf, PetNumber;
    LastPetKnown(before);
    assert Known(before) != {};
    j := LastPetStands(before);
  }

  /** Behind an empty id that itself brought the number 0, a new pet always shares. */
  lemma NewEmptyIdIsShared(lines: seq<Line>)
    requires |lines| >= 2
    requires var n := |lines| - 2;
             && lines[n].table.Pet? && PetIdOf(lines[n]) == "" && 0 !in Known(lines[..n])
             && lines[n + 1].table.Pet? && PetNumber(PetIdOf(lines[n + 1])) !in Known(lines[..n + 1])
    ensures Shares(lines)
  {
    var n := |lines| - 2;
    var first := lines[..n + 1];
    assert first[..n] == lines[..n] && first[n] == lines[n];
    EmptyIdIsZero();
    hide *;
    SpareBehindPet(first);
    SpareBehindPet(lines);
    DrawsIff(first, PetIdOf(lines[n + 1]));
  }

  lemma EmptyIdIsZero()
    ensures PetNumber("") == 0
  {
  }

  lemma DrawsIff(lines: seq<Line>, id: string)
    ensures LastPet(lines) == "" ==> !Draws(lines, id)
  {
    hide LastPet;
  }
}
