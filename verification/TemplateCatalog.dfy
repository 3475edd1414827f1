/** Generating the catalog and the bindings of a whole dump, and the check that rebuilds the dump from them. */
module TemplateCatalog {
  import opened Options
  import opened Templates
  import opened TemplateRoundTrip
  import opened TemplateTheorems

  /** A non-blank text of the dump, with what was found in it. */
  datatype Slot = Slot(text: string, entities: seq<Span>, scalars: seq<Span>)

  predicate WellCut(slot: Slot)
  {
    Ordered(slot.entities, 0, |slot.text|) && Ordered(slot.scalars, 0, |EntityText(slot.text, slot.entities)|)
  }

  predicate AllCut(slots: seq<Slot>) { forall i :: 0 <= i < |slots| ==> WellCut(slots[i]) }

  function Candidate(slot: Slot): string
    requires WellCut(slot)
  {
    Template(slot.text, slot.entities, slot.scalars)
  }

  function Pieces(slot: Slot): map<string, Piece>
    requires WellCut(slot)
  {
    Arguments(slot.text, slot.entities, slot.scalars)
  }

  /** A template is worth having when two slots with something cut out share it and differ in text. */
  ghost predicate Qualified(slots: seq<Slot>, template: string)
    requires AllCut(slots)
  {
    exists i, j :: 0 <= i < |slots| && 0 <= j < |slots|
      && Candidate(slots[i]) == template == Candidate(slots[j]) && Pieces(slots[i]) != map[] && Pieces(slots[j]) != map[]
      && slots[i].text != slots[j].text
  }

  ghost function Record(slots: seq<Slot>, i: nat, ids: Ids): Stored
    requires AllCut(slots) && i < |slots|
  {
    MaterialRecord(slots[i].text, slots[i].entities, slots[i].scalars, ids, Qualified(slots, Candidate(slots[i])))
  }

  ghost function UnitOf(slots: seq<Slot>, i: nat, ids: Ids): Entry
    requires AllCut(slots) && i < |slots|
  {
    var source := Record(slots, i, ids).source;
    UnitEntry(ids.unit(source), source, CustomPlaceholders(source))
  }

  ghost function EntitiesOf(slots: seq<Slot>, i: nat, ids: Ids): set<Entry>
    requires AllCut(slots) && i < |slots|
  {
    if Qualified(slots, Candidate(slots[i])) then
      set p | p in Pieces(slots[i]) && Pieces(slots[i])[p].EntityPiece? ::
        EntityEntry(ids.entity(Pieces(slots[i])[p].kind, Pieces(slots[i])[p].source),
                    Pieces(slots[i])[p].kind, Pieces(slots[i])[p].source)
    else {}
  }

  /** One entry for every unit source and for every entity of a qualified record. */
  ghost function Catalog(slots: seq<Slot>, ids: Ids, n: nat): set<Entry>
    requires AllCut(slots) && n <= |slots|
  {
    if n == 0 then {} else Catalog(slots, ids, n - 1) + {UnitOf(slots, n - 1, ids)} + EntitiesOf(slots, n - 1, ids)
  }

  /** What reading the catalog checks. */
  ghost predicate UniqueIds(catalog: set<Entry>)
  {
    forall e, f :: e in catalog && f in catalog && e.id == f.id ==> e == f
  }

  ghost function IndexOf(catalog: set<Entry>): Index
    requires UniqueIds(catalog)
  {
    map e | e in catalog :: e.id := e
  }

  /** A binding: the id of the unit, and the arguments. */
  datatype Binding = Binding(unit: string, args: map<string, Arg>)

  ghost function BindingOf(slots: seq<Slot>, i: nat, ids: Ids): Binding
    requires AllCut(slots) && i < |slots|
  {
    Binding(ids.unit(Record(slots, i, ids).source), Record(slots, i, ids).args)
  }

  function PlaceholdersOf(e: Entry): seq<string> { if e.UnitEntry? then e.placeholders else [] }

  /** The text a binding stands for, untranslated. */
  function Rebuilt(index: Index, binding: Binding): Result
    requires forall id | id in index :: forall i :: 0 <= i < |PlaceholdersOf(index[id])| ==> PlaceholdersOf(index[id])[i] != []
  {
    if binding.unit !in index then Err(NoUnit(binding.unit))
    else ExpandUnit(index, index[binding.unit].source, PlaceholdersOf(index[binding.unit]), binding.args)
  }

  lemma {:induction false} CatalogHolds(slots: seq<Slot>, ids: Ids, n: nat)
    requires AllCut(slots) && n <= |slots|
    ensures forall i: nat :: i < n ==> UnitOf(slots, i, ids) in Catalog(slots, ids, n) && EntitiesOf(slots, i, ids) <= Catalog(slots, ids, n)
    ensures forall e | e in Catalog(slots, ids, n) :: forall k :: 0 <= k < |PlaceholdersOf(e)| ==> PlaceholdersOf(e)[k] != []
  {
    hide UnitOf, EntitiesOf;
    if n > 0 {
      CatalogHolds(slots, ids, n - 1);
      EntriesOk(slots, n - 1, ids);
    }
  }

  lemma EntriesOk(slots: seq<Slot>, i: nat, ids: Ids)
    requires AllCut(slots) && i < |slots|
    ensures forall k :: 0 <= k < |PlaceholdersOf(UnitOf(slots, i, ids))| ==> PlaceholdersOf(UnitOf(slots, i, ids))[k] != []
    ensures forall e | e in EntitiesOf(slots, i, ids) :: PlaceholdersOf(e) == []
  {
    hide Record, Qualified;
  }

  lemma IndexHolds(catalog: set<Entry>, e: Entry)
    requires UniqueIds(catalog) && e in catalog
    ensures e.id in IndexOf(catalog) && IndexOf(catalog)[e.id] == e
  {
  }

  lemma EntitiesCatalogued(slots: seq<Slot>, i: nat, ids: Ids, catalog: set<Entry>)
    requires AllCut(slots) && i < |slots| && UniqueIds(catalog) && EntitiesOf(slots, i, ids) <= catalog
    requires Qualified(slots, Candidate(slots[i]))
    ensures Catalogued(Pieces(slots[i]), IndexOf(catalog), ids)
  {
    hide Qualified, Candidate, Pieces, IndexOf;
    var pieces := Pieces(slots[i]);
    forall p | p in pieces && pieces[p].EntityPiece?
      ensures var id := ids.entity(pieces[p].kind, pieces[p].source);
        id in IndexOf(catalog) && IndexOf(catalog)[id] == EntityEntry(id, pieces[p].kind, pieces[p].source)
    {
      IndexHolds(catalog, EntityEntry(ids.entity(pieces[p].kind, pieces[p].source), pieces[p].kind, pieces[p].source));
    }
  }

  /** Whatever was found in the texts of a dump without the reserved prefix: the generated bindings rebuild every one
      of them from the generated catalog, unless reading the catalog fails because two entries share an id. */
  lemma GeneratedChecks(slots: seq<Slot>, ids: Ids, i: nat)
    requires AllCut(slots) && i < |slots|
    requires forall k :: 0 <= k < |slots| ==> Clean(slots[k].text) && AvoidsTokens(EntityText(slots[k].text, slots[k].entities), slots[k].scalars)
    requires UniqueIds(Catalog(slots, ids, |slots|))
    ensures var index := IndexOf(Catalog(slots, ids, |slots|));
      && (forall id | id in index :: forall k :: 0 <= k < |PlaceholdersOf(index[id])| ==> PlaceholdersOf(index[id])[k] != [])
      && Rebuilt(index, BindingOf(slots, i, ids)) == Ok(slots[i].text)
  {
    hide Clean, AvoidsTokens, Catalog, Qualified, MaterialRecord, Candidate, Pieces, ExpandUnit, CustomPlaceholders;
    var slot, catalog := slots[i], Catalog(slots, ids, |slots|);
    var index := IndexOf(catalog);
    CatalogHolds(slots, ids, |slots|);
    IndexHolds(catalog, UnitOf(slots, i, ids));
    var qualified := Qualified(slots, Candidate(slot));
    if qualified {
      EntitiesCatalogued(slots, i, ids, catalog);
    }
    assert qualified ==> Catalogued(Arguments(slot.text, slot.entities, slot.scalars), index, ids) by {
      PiecesAre(slot);
    }
    RecordRebuilds(slot.text, slot.entities, slot.scalars, index, ids, qualified);
  }

  lemma PiecesAre(slot: Slot)
    requires WellCut(slot)
    ensures Pieces(slot) == Arguments(slot.text, slot.entities, slot.scalars)
  {
  }

  /** Two different texts with something cut out and one template share a unit; a text whose template no other such
      text shares is a unit of its own, without arguments. */
  lemma UnitsAreShared(slots: seq<Slot>, ids: Ids, i: nat, j: nat)
    requires AllCut(slots) && i < |slots| && j < |slots|
    ensures Candidate(slots[i]) == Candidate(slots[j]) && Pieces(slots[i]) != map[] && Pieces(slots[j]) != map[]
            && slots[i].text != slots[j].text ==>
      && Record(slots, i, ids).source == Record(slots, j, ids).source == Candidate(slots[i])
      && BindingOf(slots, i, ids).unit == BindingOf(slots, j, ids).unit && UnitOf(slots, i, ids) == UnitOf(slots, j, ids)
    ensures (forall k :: 0 <= k < |slots| && Candidate(slots[k]) == Candidate(slots[i]) ==> slots[k].text == slots[i].text) ==>
      Record(slots, i, ids) == Stored(slots[i].text, map[])
  {
    hide Pieces, CustomPlaceholders, Template, StoredArgs;
  }
}
