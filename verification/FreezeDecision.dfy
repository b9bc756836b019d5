/**
 The decision to freeze the observation graph: three validators that collect blocking reasons, the
 longest of them over the signed Windows checklist and its canonical table of item ids.
 */
module FreezeDecision {
  import opened Wrappers

  // ---------------------------------------------------------------- the canonical items

  /** An item id, cut at its first dot. */
  datatype ItemId = ItemId(prefix: string, name: Option<string>)

  datatype Section = Section(name: string, count: nat)

  const SECTIONS: seq<Section> := [
    Section("3", 9), Section("4", 6), Section("5", 13), Section("6", 22), Section("7", 13),
    Section("8", 9), Section("9", 12), Section("10", 8), Section("11", 9), Section("12", 10),
    Section("13", 6), Section("14", 9), Section("15", 7), Section("16", 13), Section("17", 3)]

  const VETO_SECTION := "16"
  const CONCLUSION_SECTION := "17"
  const VETO_NAMES: seq<string> := [
    "permit-binding-enforced", "high-risk-authorization-required", "emergency-stop-blocks-new-actions",
    "no-secret-plaintext-logs", "no-companion-bypass-approval", "no-direct-uia-or-pid-management",
    "named-pipe-identity-enforced", "uia-hang-does-not-kill-companion", "no-out-of-job-name-or-pid-kill",
    "trace-integrity-conflicts-rejected", "unsigned-skill-not-executed", "crash-signals-not-suppressed",
    "unknown-side-effect-not-replayed"]
  const ITEM := "item-"

  /** The `k`-th item of a section; those of the veto section have these names of their own. */
  function CanonicalId(section: string, k: nat, names: seq<string>): ItemId {
    ItemId(section, Some(if section == VETO_SECTION && k < |names| then names[k] else ITEM + Decimal(k + 1)))
  }

  function Decimal(n: nat): string {
    (if n < 10 then "" else Decimal(n / 10)) + [('0' as int + n % 10) as char]
  }

  /** Read as a number, a section name or the number of an item. */
  function NumberOf(text: string): int {
    if text == "" then 0 else NumberOf(text[..|text| - 1]) * 10 + (text[|text| - 1] as int - '0' as int)
  }

  lemma {:induction false} DecimalReadsBack(n: nat)
    ensures NumberOf(Decimal(n)) == n
  {
    var text := Decimal(n);
    if n < 10 {
      assert text[..|text| - 1] == "" && text[|text| - 1] == ('0' as int + n) as char;
      assert NumberOf("") == 0;
    } else {
      DecimalReadsBack(n / 10);
      assert text[..|text| - 1] == Decimal(n / 10);
    }
  }

  /** The length and the first two letters tell the veto names apart. */
  lemma {:induction false} VetoNamesDiffer(i: nat, j: nat)
    requires i < j < |VETO_NAMES|
    ensures VETO_NAMES[i] != VETO_NAMES[j]
  {
    VetoMark(i);
    VetoMark(j);
  }

  const VETO_MARKS: seq<(int, char, char)> := [
    (23, 'p', 'e'), (32, 'h', 'i'), (33, 'e', 'm'), (24, 'n', 'o'), (28, 'n', 'o'), (31, 'n', 'o'),
    (28, 'n', 'a'), (32, 'u', 'i'), (30, 'n', 'o'), (34, 't', 'r'), (27, 'u', 'n'), (28, 'c', 'r'), (32, 'u', 'n')]

  lemma {:induction false} VetoMark(i: nat)
    requires i < |VETO_NAMES|
    ensures |VETO_NAMES[i]| > 1 && MarkOf(VETO_NAMES[i]) == VETO_MARKS[i]
  {
  }

  function MarkOf(name: string): (int, char, char)
    requires |name| > 1
  {
    (|name|, name[0], name[1])
  }

  lemma {:induction false} DecimalsDiffer(m: nat, n: nat)
    requires m != n
    ensures Decimal(m) != Decimal(n)
  {
    DecimalReadsBack(m);
    DecimalReadsBack(n);
  }

  lemma {:induction false} PrefixedDiffer(prefix: string, a: string, b: string)
    requires a != b
    ensures prefix + a != prefix + b
  {
    assert (prefix + a)[|prefix|..] == a && (prefix + b)[|prefix|..] == b;
  }

  lemma {:induction false} ItemNamesDiffer(i: nat, j: nat)
    requires i < j
    ensures ITEM + Decimal(i + 1) != ITEM + Decimal(j + 1)
  {
    DecimalsDiffer(i + 1, j + 1);
    PrefixedDiffer(ITEM, Decimal(i + 1), Decimal(j + 1));
  }

  /** The ids of one section differ. */
  lemma {:induction false} SectionIdsDiffer(section: Section, n: nat, names: seq<string>)
    requires NoRepeats(names) && (section.name == VETO_SECTION ==> n <= |names|)
    ensures NoRepeats(IdsOfSection(section, n, names))
  {
    var ids := IdsOfSection(section, n, names);
    forall i, j | 0 <= i < j < n ensures ids[i] != ids[j] {
      if section.name != VETO_SECTION {
        ItemNamesDiffer(i, j);
      }
    }
  }

  function IdsOfSection(section: Section, n: nat, names: seq<string>): (ids: seq<ItemId>)
    ensures |ids| == n && forall k :: 0 <= k < n ==> ids[k] == CanonicalId(section.name, k, names)
  {
    if n == 0 then [] else IdsOfSection(section, n - 1, names) + [CanonicalId(section.name, n - 1, names)]
  }

  function RequiredIds(sections: seq<Section>, names: seq<string>): seq<ItemId> {
    if sections == [] then []
    else
      RequiredIds(sections[..|sections| - 1], names)
      + IdsOfSection(sections[|sections| - 1], sections[|sections| - 1].count, names)
  }

  function VetoIds(names: seq<string>): seq<ItemId> {
    IdsOfSection(Section(VETO_SECTION, |names|), |names|, names)
  }

  /** A list without its order and repetitions. */
  function Elements<T(==)>(s: seq<T>): set<T> {
    set x | x in s
  }

  ghost predicate NoRepeats<T>(s: seq<T>) {
    forall i, j :: 0 <= i < j < |s| ==> s[i] != s[j]
  }

  /** Sections have names of their own and at least one item, the veto section as many as there are veto names. */
  ghost predicate ProperTable(sections: seq<Section>, names: seq<string>) {
    && (forall i :: 0 <= i < |sections| ==> sections[i].count > 0 && (sections[i].name == VETO_SECTION ==> sections[i].count == |names|))
    && DistinctSections(sections) && NoRepeats(names)
  }

  ghost predicate DistinctSections(sections: seq<Section>) {
    forall i, j :: 0 <= i < j < |sections| ==> sections[i].name != sections[j].name
  }

  lemma {:induction false} SectionsAreProper()
    ensures ProperTable(SECTIONS, VETO_NAMES)
  {
    forall i, j | 0 <= i < j < |SECTIONS| ensures SECTIONS[i].name != SECTIONS[j].name {
      NamesRise(i, j);
    }
    forall i | 0 <= i < |SECTIONS| && SECTIONS[i].name == VETO_SECTION ensures SECTIONS[i].count == |VETO_NAMES| {
      SectionNumber(i);
      SectionNumber(13);
      assert SECTIONS[13].name == VETO_SECTION;
    }
    forall i, j | 0 <= i < j < |VETO_NAMES| ensures VETO_NAMES[i] != VETO_NAMES[j] {
      VetoNamesDiffer(i, j);
    }
  }

  lemma {:induction false} NamesRise(i: nat, j: nat)
    requires i < j < |SECTIONS|
    ensures SECTIONS[i].name != SECTIONS[j].name
  {
    SectionNumber(i);
    SectionNumber(j);
  }

  lemma {:induction false} SectionNumber(i: nat)
    requires i < |SECTIONS|
    ensures NumberOf(SECTIONS[i].name) == i + 3
  {
    var name := SECTIONS[i].name;
    if i < 7 {
      assert name[..0] == "";
    } else {
      assert name[..1] == "1" && name[..1][..0] == "";
    }
  }

  lemma {:induction false} NoRepeatsInBoth<T>(a: seq<T>, b: seq<T>)
    requires NoRepeats(a) && NoRepeats(b) && forall x :: x in a ==> x !in b
    ensures NoRepeats(a + b)
  {
    forall i, j | 0 <= i < j < |a + b| ensures (a + b)[i] != (a + b)[j] {
      if i < |a| <= j {
        assert (a + b)[i] in a && (a + b)[j] in b;
      }
    }
  }

  ghost predicate InTable(sections: seq<Section>, names: seq<string>, id: ItemId) {
    exists s, k :: s in sections && 0 <= k < s.count && id == CanonicalId(s.name, k, names)
  }

  lemma {:induction false} RequiredIdsAreInTable(sections: seq<Section>, names: seq<string>)
    ensures forall id :: id in RequiredIds(sections, names) <==> InTable(sections, names, id)
  {
    if sections != [] {
      var init, last := sections[..|sections| - 1], sections[|sections| - 1];
      RequiredIdsAreInTable(init, names);
      assert sections == init + [last];
      forall id ensures InTable(sections, names, id) <==> InTable(init, names, id) || id in IdsOfSection(last, last.count, names) {
        if InTable(sections, names, id) {
          var s, k :| s in sections && 0 <= k < s.count && id == CanonicalId(s.name, k, names);
          if s == last {
            assert IdsOfSection(last, last.count, names)[k] == id;
          }
        }
        if id in IdsOfSection(last, last.count, names) {
          assert last in sections;
        }
        if InTable(init, names, id) {
          var s, k :| s in init && 0 <= k < s.count && id == CanonicalId(s.name, k, names);
          assert s in sections;
        }
      }
    }
  }

  lemma {:induction false} RequiredIdsDiffer(sections: seq<Section>, names: seq<string>)
    requires ProperTable(sections, names)
    ensures NoRepeats(RequiredIds(sections, names))
  {
    if sections != [] {
      var init, last := sections[..|sections| - 1], sections[|sections| - 1];
      RequiredIdsDiffer(init, names);
      RequiredIdsAreInTable(init, names);
      var ids := IdsOfSection(last, last.count, names);
      SectionIdsDiffer(last, last.count, names);
      forall id | id in RequiredIds(init, names) ensures id !in ids {
        var s, k :| s in init && 0 <= k < s.count && id == CanonicalId(s.name, k, names);
      }
      NoRepeatsInBoth(RequiredIds(init, names), ids);
    }
  }

  /** The required ids are those of the table, each listed once. */
  lemma {:induction false} RequiredIdsAreCanonical(sections: seq<Section>, names: seq<string>)
    requires ProperTable(sections, names)
    ensures NoRepeats(RequiredIds(sections, names))
    ensures forall id :: id in RequiredIds(sections, names) <==>
      exists s, k :: s in sections && 0 <= k < s.count && id == CanonicalId(s.name, k, names)
  {
    RequiredIdsDiffer(sections, names);
    RequiredIdsAreInTable(sections, names);
    assert forall id :: id in RequiredIds(sections, names) <==> InTable(sections, names, id);
  }

  // ---------------------------------------------------------------- counting by section

  function CountPrefix(ids: seq<ItemId>, section: string): nat {
    if ids == [] then 0
    else CountPrefix(ids[..|ids| - 1], section) + if ids[|ids| - 1].prefix == section then 1 else 0
  }

  lemma {:induction false} CountPrefixOfBoth(a: seq<ItemId>, b: seq<ItemId>, section: string)
    ensures CountPrefix(a + b, section) == CountPrefix(a, section) + CountPrefix(b, section)
  {
    if b == [] {
      assert a + b == a;
    } else {
      assert (a + b)[..|a + b| - 1] == a + b[..|b| - 1];
      CountPrefixOfBoth(a, b[..|b| - 1], section);
    }
  }

  function WithPrefix(ids: seq<ItemId>, section: string): set<ItemId> {
    set id | id in ids && id.prefix == section
  }

  lemma {:induction false} WithPrefixNext(ids: seq<ItemId>, last: ItemId, section: string)
    ensures WithPrefix(ids + [last], section) == WithPrefix(ids, section) + if last.prefix == section then {last} else {}
  {
    assert forall id :: id in ids + [last] <==> id in ids || id == last;
  }

  lemma {:induction false} CountPrefixIsSize(ids: seq<ItemId>, section: string)
    requires NoRepeats(ids)
    ensures CountPrefix(ids, section) == |WithPrefix(ids, section)|
  {
    if ids == [] {
      assert WithPrefix(ids, section) == {};
    } else {
      var init, last := ids[..|ids| - 1], ids[|ids| - 1];
      CountPrefixIsSize(init, section);
      WithPrefixNext(init, last, section);
      assert ids == init + [last];
      LastIsNew(ids);
    }
  }

  lemma {:induction false} LastIsNew<T>(s: seq<T>)
    requires NoRepeats(s) && s != []
    ensures s[|s| - 1] !in s[..|s| - 1] && NoRepeats(s[..|s| - 1])
  {
  }

  lemma {:induction false} SizeOfElements(ids: seq<ItemId>)
    requires NoRepeats(ids)
    ensures |Elements(ids)| == |ids|
  {
    if ids == [] {
      assert Elements(ids) == {};
    } else {
      var init, last := ids[..|ids| - 1], ids[|ids| - 1];
      SizeOfElements(init);
      assert ids == init + [last] && last !in init;
      assert Elements(ids) == Elements(init) + {last};
    }
  }

  lemma {:induction false} CountInSection(section: Section, n: nat, names: seq<string>, name: string)
    ensures CountPrefix(IdsOfSection(section, n, names), name) == if name == section.name then n else 0
  {
    if n > 0 {
      CountInSection(section, n - 1, names, name);
      assert IdsOfSection(section, n, names)[..n - 1] == IdsOfSection(section, n - 1, names);
    }
  }

  lemma {:induction false} CountLastSection(sections: seq<Section>, names: seq<string>, name: string)
    requires sections != []
    ensures var init, last := sections[..|sections| - 1], sections[|sections| - 1];
      CountPrefix(RequiredIds(sections, names), name)
      == CountPrefix(RequiredIds(init, names), name) + if name == last.name then last.count else 0
  {
    var init, last := sections[..|sections| - 1], sections[|sections| - 1];
    CountPrefixOfBoth(RequiredIds(init, names), IdsOfSection(last, last.count, names), name);
    CountInSection(last, last.count, names, name);
  }

  function TableCount(sections: seq<Section>, name: string): nat {
    if sections == [] then 0
    else
      TableCount(sections[..|sections| - 1], name)
      + if name == sections[|sections| - 1].name then sections[|sections| - 1].count else 0
  }

  lemma {:induction false} RequiredCountIsTableCount(sections: seq<Section>, names: seq<string>, name: string)
    ensures CountPrefix(RequiredIds(sections, names), name) == TableCount(sections, name)
  {
    if sections != [] {
      RequiredCountIsTableCount(sections[..|sections| - 1], names, name);
      CountLastSection(sections, names, name);
    }
  }

  lemma {:induction false} TableCountIsCount(sections: seq<Section>, name: string)
    requires DistinctSections(sections)
    ensures forall i :: 0 <= i < |sections| && sections[i].name == name ==> TableCount(sections, name) == sections[i].count
    ensures (forall i :: 0 <= i < |sections| ==> sections[i].name != name) ==> TableCount(sections, name) == 0
  {
    if sections != [] {
      TableCountIsCount(sections[..|sections| - 1], name);
    }
  }

  /** The required ids have as many of each section as the table says, and none of any other. */
  lemma {:induction false} CountRequired(sections: seq<Section>, names: seq<string>, name: string)
    requires DistinctSections(sections)
    ensures forall i :: 0 <= i < |sections| && sections[i].name == name ==>
      CountPrefix(RequiredIds(sections, names), name) == sections[i].count
    ensures (forall i :: 0 <= i < |sections| ==> sections[i].name != name) ==> CountPrefix(RequiredIds(sections, names), name) == 0
  {
    RequiredCountIsTableCount(sections, names, name);
    TableCountIsCount(sections, name);
  }

  // ---------------------------------------------------------------- the checklist

  datatype ItemResult = Pass | Fail | NotApplicable | NotRun

  datatype ChecklistItem = ChecklistItem(section: string, id: ItemId, description: string, result: ItemResult)

  /** White space and line terminators, as trimming has them. */
  predicate IsBlank(c: char) {
    || '\t' <= c <= '\r' || c in {' ', '\U{00A0}', '\U{1680}', '\U{2028}', '\U{2029}', '\U{202F}', '\U{205F}', '\U{3000}', '\U{FEFF}'}
    || '\U{2000}' <= c <= '\U{200A}'
  }

  function Trimmed(text: string): string {
    TrimEnd(TrimStart(text))
  }

  function TrimStart(text: string): string {
    if text != "" && IsBlank(text[0]) then TrimStart(text[1..]) else text
  }

  function TrimEnd(text: string): string {
    if text != "" && IsBlank(text[|text| - 1]) then TrimEnd(text[..|text| - 1]) else text
  }

  predicate NonEmpty(text: string) {
    Trimmed(text) != ""
  }

  /** `executedAt` is there when the text is a valid timestamp. */
  datatype Checklist = Checklist(
    version: string, runnerProtocolVersion: string, operatorName: string, reviewerName: string, executedAt: Option<int>,
    productVersion: string, windowsBuild: string, securityVetoItemIds: seq<ItemId>, items: seq<ChecklistItem>)

  const CHECKLIST_VERSION := "windows-m3-manual-checklist/v1"
  const RUNNER_PROTOCOL_VERSION := "runner-protocol/v1"

  predicate CompleteIdentity(item: ChecklistItem) {
    (NonEmpty(item.id.prefix) || item.id.name.Some?) && NonEmpty(item.section) && NonEmpty(item.description)
  }

  predicate WellRecorded(item: ChecklistItem) {
    CompleteIdentity(item) && item.id.prefix == item.section && item.result != Fail && item.result != NotRun
  }

  function ItemIds(items: seq<ChecklistItem>): (ids: seq<ItemId>)
    ensures |ids| == |items| && forall i :: 0 <= i < |items| ==> ids[i] == items[i].id
  {
    seq(|items|, i requires 0 <= i < |items| => items[i].id)
  }

  predicate Header(e: Checklist) {
    && e.version == CHECKLIST_VERSION && e.runnerProtocolVersion == RUNNER_PROTOCOL_VERSION
    && NonEmpty(e.operatorName) && NonEmpty(e.reviewerName) && Trimmed(e.operatorName) != Trimmed(e.reviewerName)
    && e.executedAt.Some? && NonEmpty(e.productVersion) && NonEmpty(e.windowsBuild)
  }

  /** Every item well recorded and none recorded twice. */
  ghost predicate ItemsInOrder(items: seq<ChecklistItem>) {
    && (forall i :: 0 <= i < |items| ==> WellRecorded(items[i]))
    && NoRepeats(ItemIds(items))
  }

  function Conclusions(items: seq<ChecklistItem>): seq<ChecklistItem> {
    if items == [] then []
    else Conclusions(items[..|items| - 1]) + if items[|items| - 1].section == CONCLUSION_SECTION then [items[|items| - 1]] else []
  }

  function Passing(items: seq<ChecklistItem>): nat {
    if items == [] then 0 else Passing(items[..|items| - 1]) + if items[|items| - 1].result == Pass then 1 else 0
  }

  predicate OneConclusion(items: seq<ChecklistItem>) {
    && Passing(Conclusions(items)) == 1
    && forall i :: 0 <= i < |Conclusions(items)| ==> Conclusions(items)[i].result in {Pass, NotApplicable}
  }

  /**
   A checklist is accepted when it is signed by two people for the right versions, its items are
   exactly the canonical ones in some order, each well recorded, all veto items are attested once
   and passed, and one conclusion is the passing one.
   */
  ghost predicate Accepted(e: Checklist, sections: seq<Section>, names: seq<string>) {
    && Header(e) && ItemsInOrder(e.items)
    && Elements(ItemIds(e.items)) == Elements(RequiredIds(sections, names))
    && NoRepeats(e.securityVetoItemIds) && Elements(e.securityVetoItemIds) == Elements(VetoIds(names))
    && (forall i :: 0 <= i < |e.items| && e.items[i].section == VETO_SECTION ==> e.items[i].result == Pass)
    && OneConclusion(e.items)
  }

  function CountSection(items: seq<ChecklistItem>, section: string): nat {
    if items == [] then 0
    else CountSection(items[..|items| - 1], section) + if items[|items| - 1].section == section then 1 else 0
  }

  lemma {:induction false} CountSectionByIds(items: seq<ChecklistItem>, section: string)
    requires forall i :: 0 <= i < |items| ==> items[i].id.prefix == items[i].section
    ensures CountSection(items, section) == CountPrefix(ItemIds(items), section)
  {
    if items != [] {
      CountSectionByIds(items[..|items| - 1], section);
      assert ItemIds(items)[..|items| - 1] == ItemIds(items[..|items| - 1]);
    }
  }

  /**
   The checks of the section counts add nothing: once every item is where its id says, no id comes
   twice and the ids are the canonical ones, each section has as many items as the table asks for.
   */
  lemma {:induction false} SectionCountsFollow(
      items: seq<ChecklistItem>, sections: seq<Section>, names: seq<string>, name: string)
    requires ItemsInOrder(items) && ProperTable(sections, names) && Elements(ItemIds(items)) == Elements(RequiredIds(sections, names))
    ensures forall i :: 0 <= i < |sections| && sections[i].name == name ==> CountSection(items, name) == sections[i].count
    ensures (forall i :: 0 <= i < |sections| ==> sections[i].name != name) ==> CountSection(items, name) == 0
  {
    RequiredIdsAreCanonical(sections, names);
    CountSectionByIds(items, name);
    SameElementsSameCount(ItemIds(items), RequiredIds(sections, names), name);
    CountRequired(sections, names, name);
  }

  lemma {:induction false} SameElementsSameCount(a: seq<ItemId>, b: seq<ItemId>, name: string)
    requires NoRepeats(a) && NoRepeats(b) && Elements(a) == Elements(b)
    ensures CountPrefix(a, name) == CountPrefix(b, name)
  {
    CountPrefixIsSize(a, name);
    CountPrefixIsSize(b, name);
    assert forall id :: id in a <==> id in Elements(a);
    assert forall id :: id in b <==> id in Elements(b);
    assert WithPrefix(a, name) == WithPrefix(b, name);
  }

  // ---------------------------------------------------------------- the validators

  datatype Reason =
    | Missing(what: string)
    | HeaderRefused
    | IncompleteItem
    | DuplicateItem(id: ItemId)
    | MisplacedItem(id: ItemId)
    | UnfinishedItem(id: ItemId)
    | SectionCount(section: string)
    | UnknownSection
    | NotCanonical
    | VetoIdsRefused
    | VetoNotAttested(id: ItemId)
    | VetoNotPassed(id: ItemId)
    | ConclusionRefused
    | ReportRefused
    | SchemaRefused
    | CoreFieldMissing(field: string)

  /** Reasons are only ever added, and a validator says no exactly when it added one. */
  ghost predicate Judged(ok: bool, before: seq<Reason>, after: seq<Reason>) {
    before <= after && (ok <==> after == before)
  }

  /** What the loop over the items knows of them when they are in order. */
  ghost predicate Indexed(items: seq<ChecklistItem>, byId: map<ItemId, ChecklistItem>, counts: map<string, nat>) {
    && byId.Keys == Elements(ItemIds(items))
    && (forall i :: 0 <= i < |items| ==> items[i].id in byId && byId[items[i].id] == items[i])
    && (forall section :: section in counts <==> CountSection(items, section) > 0)
    && (forall section :: section in counts ==> counts[section] == CountSection(items, section))
  }

  lemma {:induction false} OrderNext(items: seq<ChecklistItem>, item: ChecklistItem)
    requires ItemsInOrder(items)
    ensures ItemsInOrder(items + [item]) <==> WellRecorded(item) && item.id !in ItemIds(items)
  {
    var next := items + [item];
    assert ItemIds(next) == ItemIds(items) + [item.id];
    if WellRecorded(item) && item.id !in ItemIds(items) {
      NoRepeatsInBoth(ItemIds(items), [item.id]);
    }
    if ItemsInOrder(next) {
      LastIsNew(ItemIds(next));
      assert ItemIds(next)[..|items|] == ItemIds(items);
      assert WellRecorded(next[|items|]);
    }
  }

  lemma {:induction false} IndexedNext(
      items: seq<ChecklistItem>, byId: map<ItemId, ChecklistItem>, counts: map<string, nat>, item: ChecklistItem)
    requires Indexed(items, byId, counts) && item.id !in byId
    ensures Indexed(items + [item], byId[item.id := item],
              counts[item.section := (if item.section in counts then counts[item.section] else 0) + 1])
  {
    var next := items + [item];
    assert next[..|items|] == items;
    assert ItemIds(next) == ItemIds(items) + [item.id];
  }

  lemma {:induction false} ItemTaken(
      items: seq<ChecklistItem>, item: ChecklistItem, ok: bool, byId: map<ItemId, ChecklistItem>,
      counts: map<string, nat>)
    requires (ok <==> ItemsInOrder(items)) && (ok ==> Indexed(items, byId, counts))
    ensures ItemsInOrder(items + [item]) <==>
      ok && CompleteIdentity(item) && item.id !in byId && item.id.prefix == item.section && item.result != Fail && item.result != NotRun
    ensures ItemsInOrder(items + [item]) ==>
      Indexed(items + [item], byId[item.id := item],
              counts[item.section := (if item.section in counts then counts[item.section] else 0) + 1])
  {
    NotInOrderStays(items, item);
    if ok {
      OrderNext(items, item);
      assert item.id in byId <==> item.id in ItemIds(items);
      if item.id !in byId {
        IndexedNext(items, byId, counts, item);
      }
    }
  }

  method ValidateItems(items: seq<ChecklistItem>, reasons: seq<Reason>)
    returns (ok: bool, byId: map<ItemId, ChecklistItem>, counts: map<string, nat>, more: seq<Reason>)
    ensures Judged(ok, reasons, more) && (ok <==> ItemsInOrder(items))
    ensures ok ==> Indexed(items, byId, counts)
  {
    ok, byId, counts, more := true, map[], map[], reasons;
    var i := 0;
    while i < |items|
      invariant 0 <= i <= |items|
      invariant Judged(ok, reasons, more) && (ok <==> ItemsInOrder(items[..i]))
      invariant ok ==> Indexed(items[..i], byId, counts)
    {
      var item := items[i];
      assert items[..i + 1] == items[..i] + [item];
      ItemTaken(items[..i], item, ok, byId, counts);
      i := i + 1;
      if !CompleteIdentity(item) {
        ok, more := false, more + [IncompleteItem];
        continue;
      }
      if item.id in byId {
        ok, more := false, more + [DuplicateItem(item.id)];
      }
      if item.id.prefix != item.section {
        ok, more := false, more + [MisplacedItem(item.id)];
      }
      byId := byId[item.id := item];
      counts := counts[item.section := (if item.section in counts then counts[item.section] else 0) + 1];
      if item.result == Fail || item.result == NotRun {
        ok, more := false, more + [UnfinishedItem(item.id)];
      }
    }
    assert items[..i] == items;
  }

  lemma {:induction false} NotInOrderStays(items: seq<ChecklistItem>, item: ChecklistItem)
    ensures ItemsInOrder(items + [item]) ==> ItemsInOrder(items)
  {
    var next := items + [item];
    if ItemsInOrder(next) {
      assert forall i :: 0 <= i < |items| ==> items[i] == next[i] && ItemIds(items)[i] == ItemIds(next)[i];
    }
  }

  /** Every section of the table has its count, and there is no other section. */
  ghost predicate CountsMatch(counts: map<string, nat>, sections: seq<Section>) {
    && (forall i :: 0 <= i < |sections| ==> sections[i].name in counts && counts[sections[i].name] == sections[i].count)
    && |counts| == |sections|
  }

  method ValidateSections(
      counts: map<string, nat>, sections: seq<Section>, reasons: seq<Reason>)
    returns (ok: bool, more: seq<Reason>)
    ensures Judged(ok, reasons, more) && (ok <==> CountsMatch(counts, sections))
  {
    ok, more := true, reasons;
    var i := 0;
    while i < |sections|
      invariant 0 <= i <= |sections| && Judged(ok, reasons, more)
      invariant ok <==> forall k :: 0 <= k < i ==> sections[k].name in counts && counts[sections[k].name] == sections[k].count
    {
      if sections[i].name !in counts || counts[sections[i].name] != sections[i].count {
        ok, more := false, more + [SectionCount(sections[i].name)];
      }
      i := i + 1;
    }
    if |counts| != |sections| {
      ok, more := false, more + [UnknownSection];
    }
  }

  function Names(sections: seq<Section>): (names: seq<string>)
    ensures |names| == |sections| && forall i :: 0 <= i < |sections| ==> names[i] == sections[i].name
  {
    seq(|sections|, i requires 0 <= i < |sections| => sections[i].name)
  }

  lemma {:induction false} SizeOfNames(names: seq<string>)
    requires NoRepeats(names)
    ensures |Elements(names)| == |names|
  {
    if names == [] {
      assert Elements(names) == {};
    } else {
      SizeOfNames(names[..|names| - 1]);
      LastIsNew(names);
      assert names == names[..|names| - 1] + [names[|names| - 1]];
      assert Elements(names) == Elements(names[..|names| - 1]) + {names[|names| - 1]};
    }
  }

  /** With the canonical items in order the section checks pass. */
  lemma {:induction false} SectionsPass(
      items: seq<ChecklistItem>, byId: map<ItemId, ChecklistItem>, counts: map<string, nat>, sections: seq<Section>,
      names: seq<string>)
    requires ProperTable(sections, names) && ItemsInOrder(items) && Indexed(items, byId, counts)
    requires Elements(ItemIds(items)) == Elements(RequiredIds(sections, names))
    ensures CountsMatch(counts, sections)
  {
    forall name ensures name in counts <==> name in Elements(Names(sections)) {
      SectionCountsFollow(items, sections, names, name);
      if name in Elements(Names(sections)) {
        var i :| 0 <= i < |sections| && Names(sections)[i] == name;
      } else {
        forall i | 0 <= i < |sections| ensures sections[i].name != name {
          assert Names(sections)[i] in Names(sections);
        }
      }
    }
    forall i | 0 <= i < |sections| ensures sections[i].name in counts && counts[sections[i].name] == sections[i].count {
      SectionCountsFollow(items, sections, names, sections[i].name);
    }
    assert counts.Keys == Elements(Names(sections));
    SizeOfNames(Names(sections));
  }

  /** The canonical ids, compared as the code does: by their number and one by one. */
  method ValidateIds(
      byId: map<ItemId, ChecklistItem>, required: seq<ItemId>, reasons: seq<Reason>)
    returns (ok: bool, more: seq<Reason>)
    requires NoRepeats(required)
    ensures Judged(ok, reasons, more) && (ok <==> byId.Keys == Elements(required))
  {
    ok, more := |byId| == |required|, reasons;
    var i := 0;
    while i < |required|
      invariant 0 <= i <= |required|
      invariant ok <==> |byId| == |required| && forall k :: 0 <= k < i ==> required[k] in byId
    {
      if required[i] !in byId {
        ok := false;
      }
      i := i + 1;
    }
    SizeOfElements(required);
    if ok {
      assert Elements(required) <= byId.Keys;
      SubsetOfSameSize(Elements(required), byId.Keys);
    } else {
      more := more + [NotCanonical];
      if byId.Keys == Elements(required) {
        assert forall k :: 0 <= k < |required| ==> required[k] in Elements(required);
      }
    }
  }

  lemma {:induction false} SubsetOfSameSize<T>(a: set<T>, b: set<T>)
    requires a <= b && |a| == |b|
    ensures a == b
  {
    assert b == a + (b - a) && |b| == |a| + |b - a|;
  }

  /** Every veto item attested once and passed. */
  ghost predicate VetoesPass(attested: seq<ItemId>, byId: map<ItemId, ChecklistItem>, names: seq<string>) {
    && NoRepeats(attested) && Elements(attested) == Elements(VetoIds(names))
    && forall k :: 0 <= k < |names| ==> VetoIds(names)[k] in byId && byId[VetoIds(names)[k]].result == Pass
  }

  lemma {:induction false} VetoIdsDiffer(names: seq<string>)
    requires NoRepeats(names)
    ensures |VetoIds(names)| == |names| && NoRepeats(VetoIds(names)) && |Elements(VetoIds(names))| == |names|
  {
    SectionIdsDiffer(Section(VETO_SECTION, |names|), |names|, names);
    SizeOfElements(VetoIds(names));
  }

  /** As large as the list: nothing comes twice. */
  lemma {:induction false} FullSizeHasNoRepeats(ids: seq<ItemId>)
    ensures |Elements(ids)| <= |ids| && (|Elements(ids)| == |ids| <==> NoRepeats(ids))
  {
    if ids == [] {
      assert Elements(ids) == {};
    } else {
      var init, last := ids[..|ids| - 1], ids[|ids| - 1];
      FullSizeHasNoRepeats(init);
      assert ids == init + [last];
      assert Elements(ids) == Elements(init) + {last};
      if last in init {
        assert Elements(ids) == Elements(init);
        var k :| 0 <= k < |init| && init[k] == last;
        assert ids[k] == ids[|init|];
      } else {
        assert NoRepeats(init) ==> NoRepeats(ids);
        assert NoRepeats(ids) ==> NoRepeats(init);
      }
    }
  }

  method ValidateVetoes(attestedIds: seq<ItemId>, byId: map<ItemId, ChecklistItem>, names: seq<string>, reasons: seq<Reason>)
    returns (ok: bool, more: seq<Reason>)
    requires NoRepeats(names)
    ensures Judged(ok, reasons, more) && (ok <==> VetoesPass(attestedIds, byId, names))
  {
    var attested := Elements(attestedIds);
    var required := VetoIds(names);
    FullSizeHasNoRepeats(attestedIds);
    VetoIdsDiffer(names);
    ok, more := true, reasons;
    if |attested| != |attestedIds| || |attested| != |names| {
      ok, more := false, more + [VetoIdsRefused];
    }
    var k := 0;
    while k < |required|
      invariant 0 <= k <= |required| && Judged(ok, reasons, more)
      invariant ok <==>
        && |attested| == |attestedIds| && |attested| == |names|
        && forall j :: 0 <= j < k ==> required[j] in attested && required[j] in byId && byId[required[j]].result == Pass
    {
      if required[k] !in attested {
        ok, more := false, more + [VetoNotAttested(required[k])];
      } else if required[k] !in byId {
        ok, more := false, more + [VetoNotPassed(required[k])];
      } else if byId[required[k]].result != Pass {
        ok, more := false, more + [VetoNotPassed(required[k])];
      }
      k := k + 1;
    }
    if ok {
      assert Elements(required) <= attested;
      SubsetOfSameSize(Elements(required), attested);
    }
  }

  method ValidateHeader(e: Checklist, reasons: seq<Reason>) returns (ok: bool, more: seq<Reason>)
    ensures Judged(ok, reasons, more) && (ok <==> Header(e))
  {
    ok, more := true, reasons;
    if e.version != CHECKLIST_VERSION {
      ok, more := false, more + [HeaderRefused];
    }
    if e.runnerProtocolVersion != RUNNER_PROTOCOL_VERSION {
      ok, more := false, more + [HeaderRefused];
    }
    if !NonEmpty(e.operatorName) {
      ok, more := false, more + [HeaderRefused];
    }
    if !NonEmpty(e.reviewerName) {
      ok, more := false, more + [HeaderRefused];
    }
    if NonEmpty(e.operatorName) && NonEmpty(e.reviewerName) && Trimmed(e.operatorName) == Trimmed(e.reviewerName) {
      ok, more := false, more + [HeaderRefused];
    }
    if e.executedAt.None? {
      ok, more := false, more + [HeaderRefused];
    }
    if !NonEmpty(e.productVersion) || !NonEmpty(e.windowsBuild) {
      ok, more := false, more + [HeaderRefused];
    }
  }

  /** Each veto item is an item of the veto section. */
  lemma {:induction false} VetoIsItem(
      items: seq<ChecklistItem>, sections: seq<Section>, names: seq<string>, k: nat)
    returns (i: nat)
    requires ProperTable(sections, names) && ItemsInOrder(items) && Section(VETO_SECTION, |names|) in sections && k < |names|
    requires Elements(ItemIds(items)) == Elements(RequiredIds(sections, names))
    ensures i < |items| && items[i].id == VetoIds(names)[k] && items[i].section == VETO_SECTION
  {
    RequiredIdsAreCanonical(sections, names);
    assert CanonicalId(VETO_SECTION, k, names) in Elements(RequiredIds(sections, names));
    assert VetoIds(names)[k] in Elements(ItemIds(items));
    i :| 0 <= i < |items| && ItemIds(items)[i] == VetoIds(names)[k];
    assert WellRecorded(items[i]);
  }

  /** Each item of the veto section is a veto item. */
  lemma {:induction false} ItemIsVeto(
      items: seq<ChecklistItem>, sections: seq<Section>, names: seq<string>, i: nat)
    returns (k: nat)
    requires ProperTable(sections, names) && ItemsInOrder(items) && Section(VETO_SECTION, |names|) in sections
    requires i < |items| && items[i].section == VETO_SECTION
    requires Elements(ItemIds(items)) == Elements(RequiredIds(sections, names))
    ensures k < |names| && items[i].id == VetoIds(names)[k]
  {
    RequiredIdsAreCanonical(sections, names);
    assert WellRecorded(items[i]);
    assert ItemIds(items)[i] in Elements(ItemIds(items));
    var s, n :| s in sections && 0 <= n < s.count && items[i].id == CanonicalId(s.name, n, names);
    assert s == Section(VETO_SECTION, |names|);
    k := n;
  }

  /** In the canonical checklist the items of the veto section are the veto items. */
  lemma {:induction false} VetoSectionIsVetoItems(
      items: seq<ChecklistItem>, byId: map<ItemId, ChecklistItem>, counts: map<string, nat>, sections: seq<Section>,
      names: seq<string>)
    requires ProperTable(sections, names) && ItemsInOrder(items) && Indexed(items, byId, counts)
    requires Elements(ItemIds(items)) == Elements(RequiredIds(sections, names))
    requires Section(VETO_SECTION, |names|) in sections
    ensures (forall k :: 0 <= k < |names| ==> VetoIds(names)[k] in byId && byId[VetoIds(names)[k]].result == Pass)
      <==> forall i :: 0 <= i < |items| && items[i].section == VETO_SECTION ==> items[i].result == Pass
  {
    forall k | 0 <= k < |names|
      ensures VetoIds(names)[k] in byId && exists i :: 0 <= i < |items| && items[i] == byId[VetoIds(names)[k]] && items[i].section == VETO_SECTION
    {
      var i := VetoIsItem(items, sections, names, k);
    }
    forall i | 0 <= i < |items| && items[i].section == VETO_SECTION
      ensures exists k :: 0 <= k < |names| && VetoIds(names)[k] in byId && byId[VetoIds(names)[k]] == items[i]
    {
      var k := ItemIsVeto(items, sections, names, i);
    }
  }

  /** The validator of the signed checklist accepts exactly the accepted checklists. */
  method ValidateWindowsChecklist(
      evidence: Option<Checklist>, sections: seq<Section>, names: seq<string>, reasons: seq<Reason>)
    returns (ok: bool, more: seq<Reason>)
    requires ProperTable(sections, names) && Section(VETO_SECTION, |names|) in sections
    ensures Judged(ok, reasons, more)
    ensures ok <==> evidence.Some? && Accepted(evidence.value, sections, names)
  {
    if evidence.None? {
      return false, reasons + [Missing("signed Windows checklist")];
    }
    var e := evidence.value;
    var required := RequiredIds(sections, names);
    RequiredIdsAreCanonical(sections, names);
    var headerOk, itemsOk, sectionsOk, idsOk, vetoesOk;
    var byId, counts;
    headerOk, more := ValidateHeader(e, reasons);
    itemsOk, byId, counts, more := ValidateItems(e.items, more);
    sectionsOk, more := ValidateSections(counts, sections, more);
    idsOk, more := ValidateIds(byId, required, more);
    vetoesOk, more := ValidateVetoes(e.securityVetoItemIds, byId, names, more);
    var conclusionOk := OneConclusion(e.items);
    if !conclusionOk {
      more := more + [ConclusionRefused];
    }
    ok := headerOk && itemsOk && sectionsOk && idsOk && vetoesOk && conclusionOk;
    if itemsOk && idsOk {
      SectionsPass(e.items, byId, counts, sections, names);
      VetoSectionIsVetoItems(e.items, byId, counts, sections, names);
    }
  }

  // ---------------------------------------------------------------- the decision

  datatype Report = Report(
    generatedAt: Option<int>, graphSchemaVersion: string, allAssetsClassified: bool, zeroUnexplainedFailures: bool,
    unexplainedFailures: seq<string>, failed: int)

  const GRAPH_VERSION := "observation-graph/v1"

  predicate ReportAccepted(r: Report, decidedAt: int) {
    && r.generatedAt.Some? && r.generatedAt.value <= decidedAt && r.graphSchemaVersion == GRAPH_VERSION
    && r.allAssetsClassified && r.zeroUnexplainedFailures && r.unexplainedFailures == [] && r.failed <= 0
  }

  method ValidateCandidateReport(
      report: Option<Report>, decidedAt: int, reasons: seq<Reason>)
    returns (ok: bool, more: seq<Reason>)
    ensures Judged(ok, reasons, more) && (ok <==> report.Some? && ReportAccepted(report.value, decidedAt))
  {
    if report.None? {
      return false, reasons + [Missing("candidate report")];
    }
    var r := report.value;
    ok, more := true, reasons;
    if r.generatedAt.None? || r.generatedAt.value > decidedAt {
      ok, more := false, more + [ReportRefused];
    }
    if r.graphSchemaVersion != GRAPH_VERSION {
      ok, more := false, more + [ReportRefused];
    }
    if !r.allAssetsClassified {
      ok, more := false, more + [ReportRefused];
    }
    if !r.zeroUnexplainedFailures || |r.unexplainedFailures| > 0 {
      ok, more := false, more + [ReportRefused];
    }
    if r.failed > 0 {
      ok, more := false, more + [ReportRefused];
    }
  }

  datatype Conformance = Conformance(schemaVersion: string, web: bool, desktop: bool, sharedCoreFields: seq<string>)

  const CORE_FIELDS: seq<string> := ["role", "name", "value", "state", "relations"]

  predicate ConformanceAccepted(c: Conformance) {
    && c.schemaVersion == GRAPH_VERSION && c.web && c.desktop
    && forall k :: 0 <= k < |CORE_FIELDS| ==> CORE_FIELDS[k] in c.sharedCoreFields
  }

  method ValidateSchemaConformance(evidence: Option<Conformance>, reasons: seq<Reason>) returns (ok: bool, more: seq<Reason>)
    ensures Judged(ok, reasons, more) && (ok <==> evidence.Some? && ConformanceAccepted(evidence.value))
  {
    if evidence.None? {
      return false, reasons + [Missing("schema conformance")];
    }
    var c := evidence.value;
    ok, more := true, reasons;
    if c.schemaVersion != GRAPH_VERSION {
      ok, more := false, more + [SchemaRefused];
    }
    if !c.web {
      ok, more := false, more + [SchemaRefused];
    }
    if !c.desktop {
      ok, more := false, more + [SchemaRefused];
    }
    var fields := CORE_FIELDS;
    var k := 0;
    while k < |fields|
      invariant 0 <= k <= |fields| && Judged(ok, reasons, more)
      invariant ok <==> c.schemaVersion == GRAPH_VERSION && c.web && c.desktop && forall j :: 0 <= j < k ==> fields[j] in c.sharedCoreFields
    {
      if fields[k] !in c.sharedCoreFields {
        ok, more := false, more + [CoreFieldMissing(fields[k])];
      }
      k := k + 1;
    }
  }

  datatype Decision = Decision(frozen: bool, blockingReasons: seq<Reason>, signoff: Option<(string, string)>)

  /** Frozen exactly when nothing blocks, and nothing blocks exactly when all three inputs are accepted. */
  method DecideGraphFreeze(report: Option<Report>, checklist: Option<Checklist>, conformance: Option<Conformance>, decidedAt: int)
    returns (d: Decision)
    ensures d.frozen <==> d.blockingReasons == []
    ensures d.frozen <==>
      && report.Some? && ReportAccepted(report.value, decidedAt)
      && checklist.Some? && Accepted(checklist.value, SECTIONS, VETO_NAMES)
      && conformance.Some? && ConformanceAccepted(conformance.value)
    ensures d.signoff == if d.frozen then Some((checklist.value.operatorName, checklist.value.reviewerName)) else None
  {
    SectionsAreProper();
    assert SECTIONS[13] == Section(VETO_SECTION, |VETO_NAMES|);
    var reasons: seq<Reason> := [];
    var reportOk, checklistOk, conformanceOk;
    reportOk, reasons := ValidateCandidateReport(report, decidedAt, reasons);
    checklistOk, reasons := ValidateWindowsChecklist(checklist, SECTIONS, VETO_NAMES, reasons);
    conformanceOk, reasons := ValidateSchemaConformance(conformance, reasons);
    var frozen := reportOk && checklistOk && conformanceOk;
    if frozen && checklist.Some? {
      return Decision(frozen, reasons, Some((checklist.value.operatorName, checklist.value.reviewerName)));
    }
    return Decision(frozen, reasons, None);
  }

  /** What an accepted checklist amounts to: the canonical items in some order, none missing and none twice. */
  lemma {:induction false} AcceptedIsPermutation(e: Checklist, sections: seq<Section>, names: seq<string>)
    requires ProperTable(sections, names) && Accepted(e, sections, names)
    ensures multiset(ItemIds(e.items)) == multiset(RequiredIds(sections, names))
  {
    RequiredIdsAreCanonical(sections, names);
    SameElementsSameMultiset(ItemIds(e.items), RequiredIds(sections, names));
  }

  lemma {:induction false} SameElementsSameMultiset(a: seq<ItemId>, b: seq<ItemId>)
    requires NoRepeats(a) && NoRepeats(b) && Elements(a) == Elements(b)
    ensures multiset(a) == multiset(b)
  {
    forall id ensures multiset(a)[id] == multiset(b)[id] {
      OnceInMultiset(a, id);
      OnceInMultiset(b, id);
      assert id in a <==> id in Elements(a);
      assert id in b <==> id in Elements(b);
    }
  }

  lemma {:induction false} OnceInMultiset<T>(s: seq<T>, x: T)
    requires NoRepeats(s)
    ensures multiset(s)[x] == if x in s then 1 else 0
  {
    if s != [] {
      LastIsNew(s);
      OnceInMultiset(s[..|s| - 1], x);
      assert s == s[..|s| - 1] + [s[|s| - 1]];
    }
  }
}
