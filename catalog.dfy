/**
 * The wrapper's fixed catalog of SPMF algorithms (TAGS_SELECTION) and the
 * Weka SelectedTag values that pick one of its entries.
 */
module Catalog {
  import opened Results
  import opened JavaLang

  /** A Weka Tag: a numeric id and the name shown to the user and passed to SPMF. */
  datatype Tag = Tag(id: int, readable: string)

  /** TAGS_SELECTION: the SPMF algorithms the wrapper can run, in order. */
  const TagsSelection: seq<Tag> := [
    Tag(0, "Apriori"),
    Tag(1, "Apriori_TID"),
    Tag(2, "FPGrowth_itemsets"),
    Tag(3, "Relim"),
    Tag(4, "Eclat"),
    Tag(5, "dEclat"),
    Tag(6, "HMine"),
    Tag(7, "FIN"),
    Tag(8, "PrePost"),
    Tag(9, "LCMFreq"),
    Tag(10, "AprioriClose"),
    Tag(11, "DCI_Closed"),
    Tag(12, "Charm_bitset"),
    Tag(13, "dCharm_bitset"),
    Tag(14, "Charm_MFI"),
    Tag(15, "DefMe"),
    Tag(16, "Pascal"),
    Tag(17, "Zart"),
    Tag(18, "AprioriRare"),
    Tag(19, "AprioriInverse"),
    Tag(20, "UApriori"),
    Tag(21, "Two-Phase"),
    Tag(22, "FHM"),
    Tag(23, "HUI-Miner"),
    Tag(24, "UPGrowth"),
    Tag(25, "IHUP"),
    Tag(26, "VME"),
    Tag(27, "MSApriori"),
    Tag(28, "CFPGrowth++"),
    Tag(29, "FPGrowth_association_rules"),
    Tag(30, "FPGrowth_association_rules_with_lift"),
    Tag(31, "IGB"),
    Tag(32, "Sporadic_association_rules"),
    Tag(33, "Closed_association_rules"),
    Tag(34, "MNR"),
    Tag(35, "Indirect_association_rules"),
    Tag(36, "FHSAR"),
    Tag(37, "TopKRules"),
    Tag(38, "TNR")
  ]

  const CatalogSize: nat := 39

  /** The SPMF name of catalog entry i. */
  function Name(i: nat): string
    requires i < |TagsSelection|
  {
    TagsSelection[i].readable
  }

  // ---------------------------------------------------------------------
  // Shape of the catalog. Each entry is checked by a lemma of its own;
  // distinctness of the names goes through a fingerprint (length, first
  // and last character) that identifies every entry.
  // ---------------------------------------------------------------------

  ghost function Fingerprint(s: string): int {
    if |s| == 0 then 0 else |s| * 0x1_0000_0000 + s[0] as int * 0x1_0000 + s[|s| - 1] as int
  }

  /**
   * The catalog position whose name has fingerprint k, or -1. For example
   * "Apriori" has length 7, first character 'A' (65) and last character
   * 'i' (105): 7 * 2^32 + 65 * 2^16 + 105 = 30069031017, entry 0.
   */
  ghost function FingerprintOwner(k: int): int {
    if k == 30069031017 then 0
    else if k == 47248900164 then 1
    else if k == 73019031667 then 2
    else if k == 21480210541 then 3
    else if k == 21479358580 then 4
    else if k == 25776357492 then 5
    else if k == 21479555173 then 6
    else if k == 12889489486 then 7
    else if k == 30070014068 then 8
    else if k == 30069751921 then 9
    else if k == 51543867493 then 10
    else if k == 42954129508 then 11
    else if k == 51543998580 then 12
    else if k == 55841128564 then 13
    else if k == 38659096649 then 14
    else if k == 21479293029 then 15
    else if k == 25775046764 then 16
    else if k == 17185767540 then 17
    else if k == 47248900197 then 18
    else if k == 60133802085 then 19
    else if k == 34365309033 then 20
    else if k == 38660210789 then 21
    else if k == 12889489485 then 22
    else if k == 38659424370 then 23
    else if k == 34365309032 then 24
    else if k == 17184653392 then 25
    else if k == 12890538053 then 26
    else if k == 38659752041 then 27
    else if k == 47249031211 then 28
    else if k == 111673737331 then 29
    else if k == 154623410292 then 30
    else if k == 12889686082 then 31
    else if k == 111674589299 then 32
    else if k == 103083606131 then 33
    else if k == 12889948242 then 34
    else if k == 111673933939 then 35
    else if k == 21479424082 then 36
    else if k == 38660210803 then 37
    else if k == 12890406994 then 38
    else -1
  }

  ghost predicate EntryWellFormed(i: nat)
    requires i < |TagsSelection|
  {
    TagsSelection[i].id == i && |Name(i)| > 0 && IsAsciiLetter(Name(i)[0])
    && FingerprintOwner(Fingerprint(Name(i))) == i
  }

  lemma CheckEntry0()
    ensures EntryWellFormed(0)
  {
  }

  lemma CheckEntry1()
    ensures EntryWellFormed(1)
  {
  }

  lemma CheckEntry2()
    ensures EntryWellFormed(2)
  {
  }

  lemma CheckEntry3()
    ensures EntryWellFormed(3)
  {
  }

  lemma CheckEntry4()
    ensures EntryWellFormed(4)
  {
  }

  lemma CheckEntry5()
    ensures EntryWellFormed(5)
  {
  }

  lemma CheckEntry6()
    ensures EntryWellFormed(6)
  {
  }

  lemma CheckEntry7()
    ensures EntryWellFormed(7)
  {
  }

  lemma CheckEntry8()
    ensures EntryWellFormed(8)
  {
  }

  lemma CheckEntry9()
    ensures EntryWellFormed(9)
  {
  }

  lemma CheckEntry10()
    ensures EntryWellFormed(10)
  {
  }

  lemma CheckEntry11()
    ensures EntryWellFormed(11)
  {
  }

  lemma CheckEntry12()
    ensures EntryWellFormed(12)
  {
  }

  lemma CheckEntry13()
    ensures EntryWellFormed(13)
  {
  }

  lemma CheckEntry14()
    ensures EntryWellFormed(14)
  {
  }

  lemma CheckEntry15()
    ensures EntryWellFormed(15)
  {
  }

  lemma CheckEntry16()
    ensures EntryWellFormed(16)
  {
  }

  lemma CheckEntry17()
    ensures EntryWellFormed(17)
  {
  }

  lemma CheckEntry18()
    ensures EntryWellFormed(18)
  {
  }

  lemma CheckEntry19()
    ensures EntryWellFormed(19)
  {
  }

  lemma CheckEntry20()
    ensures EntryWellFormed(20)
  {
  }

  lemma CheckEntry21()
    ensures EntryWellFormed(21)
  {
  }

  lemma CheckEntry22()
    ensures EntryWellFormed(22)
  {
  }

  lemma CheckEntry23()
    ensures EntryWellFormed(23)
  {
  }

  lemma CheckEntry24()
    ensures EntryWellFormed(24)
  {
  }

  lemma CheckEntry25()
    ensures EntryWellFormed(25)
  {
  }

  lemma CheckEntry26()
    ensures EntryWellFormed(26)
  {
  }

  lemma CheckEntry27()
    ensures EntryWellFormed(27)
  {
  }

  lemma CheckEntry28()
    ensures EntryWellFormed(28)
  {
  }

  lemma CheckEntry29()
    ensures EntryWellFormed(29)
  {
  }

  lemma CheckEntry30()
    ensures EntryWellFormed(30)
  {
  }

  lemma CheckEntry31()
    ensures EntryWellFormed(31)
  {
  }

  lemma CheckEntry32()
    ensures EntryWellFormed(32)
  {
  }

  lemma CheckEntry33()
    ensures EntryWellFormed(33)
  {
  }

  lemma CheckEntry34()
    ensures EntryWellFormed(34)
  {
  }

  lemma CheckEntry35()
    ensures EntryWellFormed(35)
  {
  }

  lemma CheckEntry36()
    ensures EntryWellFormed(36)
  {
  }

  lemma CheckEntry37()
    ensures EntryWellFormed(37)
  {
  }

  lemma CheckEntry38()
    ensures EntryWellFormed(38)
  {
  }

  /** Entry i is well formed: one check per entry, each proved on its own. */
  lemma EntryWellFormedAt(i: nat)
    requires i < CatalogSize
    ensures EntryWellFormed(i)
  {
    if i == 0 { CheckEntry0(); }
    else if i == 1 { CheckEntry1(); }
    else if i == 2 { CheckEntry2(); }
    else if i == 3 { CheckEntry3(); }
    else if i == 4 { CheckEntry4(); }
    else if i == 5 { CheckEntry5(); }
    else if i == 6 { CheckEntry6(); }
    else if i == 7 { CheckEntry7(); }
    else if i == 8 { CheckEntry8(); }
    else if i == 9 { CheckEntry9(); }
    else if i == 10 { CheckEntry10(); }
    else if i == 11 { CheckEntry11(); }
    else if i == 12 { CheckEntry12(); }
    else if i == 13 { CheckEntry13(); }
    else if i == 14 { CheckEntry14(); }
    else if i == 15 { CheckEntry15(); }
    else if i == 16 { CheckEntry16(); }
    else if i == 17 { CheckEntry17(); }
    else if i == 18 { CheckEntry18(); }
    else if i == 19 { CheckEntry19(); }
    else if i == 20 { CheckEntry20(); }
    else if i == 21 { CheckEntry21(); }
    else if i == 22 { CheckEntry22(); }
    else if i == 23 { CheckEntry23(); }
    else if i == 24 { CheckEntry24(); }
    else if i == 25 { CheckEntry25(); }
    else if i == 26 { CheckEntry26(); }
    else if i == 27 { CheckEntry27(); }
    else if i == 28 { CheckEntry28(); }
    else if i == 29 { CheckEntry29(); }
    else if i == 30 { CheckEntry30(); }
    else if i == 31 { CheckEntry31(); }
    else if i == 32 { CheckEntry32(); }
    else if i == 33 { CheckEntry33(); }
    else if i == 34 { CheckEntry34(); }
    else if i == 35 { CheckEntry35(); }
    else if i == 36 { CheckEntry36(); }
    else if i == 37 { CheckEntry37(); }
    else { CheckEntry38(); }
  }

  lemma CatalogWellFormed()
    ensures |TagsSelection| == CatalogSize
    ensures forall i :: 0 <= i < CatalogSize ==> EntryWellFormed(i)
  {
    forall i | 0 <= i < CatalogSize
      ensures EntryWellFormed(i)
    {
      EntryWellFormedAt(i);
    }
  }

  /** The catalog has 39 entries and the entry at position i has id i. */
  lemma CatalogIds()
    ensures |TagsSelection| == CatalogSize
    ensures forall i :: 0 <= i < CatalogSize ==> TagsSelection[i].id == i
  {
    CatalogWellFormed();
    forall i | 0 <= i < CatalogSize
      ensures TagsSelection[i].id == i
    {
      assert EntryWellFormed(i);
    }
  }

  /** Strings told apart by a function of their fingerprints are pairwise distinct. */
  lemma DistinctByFingerprint(names: seq<string>, owner: int -> int)
    requires forall i :: 0 <= i < |names| ==> owner(Fingerprint(names[i])) == i
    ensures forall i, j :: 0 <= i < j < |names| ==> names[i] != names[j]
  {
  }

  lemma FingerprintsIdentifyEntries()
    ensures forall i :: 0 <= i < |TagsSelection| ==> FingerprintOwner(Fingerprint(Name(i))) == i
  {
    CatalogWellFormed();
    forall i | 0 <= i < |TagsSelection|
      ensures FingerprintOwner(Fingerprint(Name(i))) == i
    {
      assert EntryWellFormed(i);
    }
  }

  /** No two catalog entries share a name. */
  lemma NamesDistinct()
    ensures forall i, j :: 0 <= i < j < |TagsSelection| ==> Name(i) != Name(j)
  {
    FingerprintsIdentifyEntries();
    var names := seq(|TagsSelection|, i requires 0 <= i < |TagsSelection| => Name(i));
    DistinctByFingerprint(names, FingerprintOwner);
  }

  /** No catalog name parses as an integer. */
  lemma NamesNotNumeric()
    ensures forall i :: 0 <= i < |TagsSelection| ==> ParseInt(Name(i)) == None
  {
    CatalogWellFormed();
    forall i | 0 <= i < |TagsSelection|
      ensures ParseInt(Name(i)) == None
    {
      assert EntryWellFormed(i);
      LetterLedIsNotInt(Name(i));
    }
  }

  /** Only a name of the catalog is found, and the name of entry i is found at i. */
  lemma NameFoundAt(i: nat)
    requires i < |TagsSelection|
    ensures FindName(Name(i), 0) == Some(i)
  {
    NamesDistinct();
  }

  // ---------------------------------------------------------------------
  // Searching the catalog
  // ---------------------------------------------------------------------

  /** The first position at or after `from` of a tag whose name is `name`. */
  function FindReadable(tags: seq<Tag>, name: string, from: nat): (r: Option<nat>)
    requires from <= |tags|
    ensures r.Some? ==> from <= r.value < |tags| && tags[r.value].readable == name
    ensures r.Some? ==> forall k :: from <= k < r.value ==> tags[k].readable != name
    ensures r.None? ==> forall k :: from <= k < |tags| ==> tags[k].readable != name
    decreases |tags| - from
  {
    if from == |tags| then None
    else if tags[from].readable == name then Some(from)
    else FindReadable(tags, name, from + 1)
  }

  /** The first catalog position at or after `from` whose name is `name`. */
  function FindName(name: string, from: nat): (r: Option<nat>)
    requires from <= |TagsSelection|
    ensures r.Some? ==> from <= r.value < |TagsSelection| && Name(r.value) == name
    ensures r.Some? ==> forall k :: from <= k < r.value ==> Name(k) != name
    ensures r.None? ==> forall k :: from <= k < |TagsSelection| ==> Name(k) != name
  {
    FindReadable(TagsSelection, name, from)
  }

  /** One step of the search: the entry at `from` if it matches, else the search from the next entry. */
  lemma FindNameStep(name: string, from: nat)
    requires from <= |TagsSelection|
    ensures from == |TagsSelection| ==> FindName(name, from) == None
    ensures from < |TagsSelection| ==>
      FindName(name, from) == if Name(from) == name then Some(from) else FindName(name, from + 1)
  {
  }

  // ---------------------------------------------------------------------
  // Weka's SelectedTag
  // ---------------------------------------------------------------------

  /**
   * The tag array a SelectedTag refers to: TAGS_SELECTION itself, or some
   * other array. Arrays are compared by reference, so another array holding
   * the same tags is still another array.
   */
  datatype TagTable = TagsSelectionArray | OtherArray(tags: seq<Tag>)

  function TagsOf(t: TagTable): seq<Tag> {
    match t
    case TagsSelectionArray => TagsSelection
    case OtherArray(tags) => tags
  }

  /** A SelectedTag: a tag array and the position of the chosen tag in it. */
  datatype SelectedTag = SelectedTag(table: TagTable, selected: nat) {
    predicate Valid() {
      selected < |TagsOf(table)|
    }

    function GetSelectedTag(): Tag
      requires Valid()
    {
      TagsOf(table)[selected]
    }
  }

  /** The first position at or after `from` of a tag with this id. */
  function FindId(tags: seq<Tag>, id: int, from: nat): (r: Option<nat>)
    requires from <= |tags|
    ensures r.Some? ==> from <= r.value < |tags| && tags[r.value].id == id
    ensures r.None? ==> forall k :: from <= k < |tags| ==> tags[k].id != id
    decreases |tags| - from
  {
    if from == |tags| then None
    else if tags[from].id == id then Some(from)
    else FindId(tags, id, from + 1)
  }

  /**
   * new SelectedTag(id, tags): selects the tag with this id; None where
   * Weka throws IllegalArgumentException because no tag has it.
   */
  function NewSelectedTag(id: int, table: TagTable): (r: Option<SelectedTag>)
    ensures r.Some? ==> r.value.Valid() && r.value.table == table && r.value.GetSelectedTag().id == id
    ensures r.None? ==> forall k :: 0 <= k < |TagsOf(table)| ==> TagsOf(table)[k].id != id
  {
    match FindId(TagsOf(table), id, 0)
    case None => None
    case Some(k) => Some(SelectedTag(table, k))
  }

  /** A catalog tag can be selected by id exactly when the id is a catalog position, and it is the entry there. */
  lemma SelectCatalogEntry(id: int)
    ensures NewSelectedTag(id, TagsSelectionArray).Some? <==> 0 <= id < CatalogSize
    ensures 0 <= id < CatalogSize ==> NewSelectedTag(id, TagsSelectionArray) == Some(SelectedTag(TagsSelectionArray, id))
  {
    CatalogIds();
    var r := NewSelectedTag(id, TagsSelectionArray);
    if 0 <= id < CatalogSize {
      assert TagsSelection[id].id == id;
    }
  }

  /** The SelectedTag for catalog entry i, as `new SelectedTag(i, TAGS_SELECTION)` builds it. */
  function CatalogTag(i: nat): (t: SelectedTag)
    requires i < CatalogSize
    ensures t.Valid() && t.table == TagsSelectionArray && t.selected == i
    ensures t.GetSelectedTag() == TagsSelection[i]
  {
    SelectCatalogEntry(i);
    NewSelectedTag(i, TagsSelectionArray).value
  }
}
