// orchestrator/src/client/components/tailoring-utils.ts: the tailored
// skills JSON, its editable form, and the draft id counter.
module TailoringUtils {
  import opened Wrappers
  import opened Text
  import opened Dedupe
  import opened Json

  datatype SkillGroup = SkillGroup(name: string, keywords: seq<string>)

  datatype EditableSkillGroup = EditableSkillGroup(id: string, name: string, keywordsText: string)

  // ---------------------------------------------------------------- draft ids

  /** The id `createTailoredSkillDraftId` returns when the counter reaches `n`. */
  function DraftId(n: nat): string
  {
    "skill-group-" + NatToString(n)
  }

  /** Different counter values give different ids. */
  lemma DraftIdInjective(a: nat, b: nat)
    requires DraftId(a) == DraftId(b)
    ensures a == b
  {
    var prefix := "skill-group-";
    assert DraftId(a)[|prefix|..] == NatToString(a);
    assert DraftId(b)[|prefix|..] == NatToString(b);
    NatToStringValue(a);
    NatToStringValue(b);
  }

  /** The module counter `skillDraftCounter`. */
  class DraftIdCounter {
    var count: nat

    constructor ()
      ensures count == 0
    {
      count := 0;
    }

    /** `createTailoredSkillDraftId`: bump the counter, then name the id after it. */
    method CreateId() returns (id: string)
      modifies this
      ensures count == old(count) + 1
      ensures id == DraftId(count)
    {
      count := count + 1;
      id := DraftId(count);
    }
  }

  // ---------------------------------------------------------------- parsing the stored JSON

  /** The string elements of a JSON array, in order. */
  function StringsOf(items: seq<Json>): seq<string>
  {
    if items == [] then []
    else
      var rest := StringsOf(items[..|items| - 1]);
      var last := items[|items| - 1];
      if last.Str? then rest + [last.s] else rest
  }

  /** `keywordsRaw` restricted to its strings: an array's strings, a string split on ",", else nothing. */
  function RawKeywords(v: Json): seq<string>
  {
    if v.Arr? then StringsOf(v.items)
    else if v.Str? then Split(v.s, {','})
    else []
  }

  /**
    * The group an item that is not a string contributes: None for null,
    * booleans and numbers, and for objects and arrays whose trimmed name is
    * empty and which have no keywords.
    */
  function ItemGroup(item: Json): Option<SkillGroup>
  {
    if !item.Obj? && !item.Arr? then None
    else
      var nameField := Field(item, "name");
      var name := if nameField.Str? then Trim(nameField.s) else "";
      var keywords := TrimmedNonEmpty(RawKeywords(Field(item, "keywords")));
      if name == "" && keywords == [] then None else Some(SkillGroup(name, keywords))
  }

  /** The keyword a bare string item contributes: its trimmed text, unless that is empty. */
  function LegacyKeyword(item: Json): Option<string>
  {
    if item.Str? && Trim(item.s) != "" then Some(Trim(item.s)) else None
  }

  function AsSeq<T>(o: Option<T>): seq<T>
  {
    if o.Some? then [o.value] else []
  }

  /** The groups of the object items, in order. */
  function ObjectGroups(items: seq<Json>): seq<SkillGroup>
  {
    if items == [] then [] else ObjectGroups(items[..|items| - 1]) + AsSeq(ItemGroup(items[|items| - 1]))
  }

  /** The keywords of the bare string items, in order. */
  function LegacyKeywords(items: seq<Json>): seq<string>
  {
    if items == [] then [] else LegacyKeywords(items[..|items| - 1]) + AsSeq(LegacyKeyword(items[|items| - 1]))
  }

  /** The object groups, then one "Skills" group holding the bare keywords when there are any. */
  function SkillsFromItems(items: seq<Json>): seq<SkillGroup>
  {
    var legacy := LegacyKeywords(items);
    ObjectGroups(items) + (if legacy == [] then [] else [SkillGroup("Skills", legacy)])
  }

  /**
    * What `parseTailoredSkills` returns; `parse` stands for JSON.parse and
    * is None where it throws.
    */
  function ParsedSkills(raw: Option<string>, parse: string -> Option<Json>): seq<SkillGroup>
  {
    if raw.None? || Trim(raw.value) == "" then []
    else match parse(raw.value)
      case None => []
      case Some(parsed) => if parsed.Arr? then SkillsFromItems(parsed.items) else []
  }

  /**
    * `parseTailoredSkills`: blank, unparsable and non-array input give no
    * groups; otherwise the items are sorted into object groups and bare
    * keywords, and the keywords become a last "Skills" group.
    */
  method ParseTailoredSkills(raw: Option<string>, parse: string -> Option<Json>) returns (groups: seq<SkillGroup>)
    ensures groups == ParsedSkills(raw, parse)
  {
    if raw.None? || Trim(raw.value) == "" {
      return [];
    }
    var parsed := parse(raw.value);
    if parsed.None? || !parsed.value.Arr? {
      return [];
    }
    var legacyKeywords;
    groups, legacyKeywords := CollectSkillItems(parsed.value.items);
    if |legacyKeywords| > 0 {
      groups := groups + [SkillGroup("Skills", legacyKeywords)];
    }
  }

  /** The loop of `parseTailoredSkills` over the parsed array. */
  method CollectSkillItems(items: seq<Json>) returns (groups: seq<SkillGroup>, legacyKeywords: seq<string>)
    ensures groups == ObjectGroups(items)
    ensures legacyKeywords == LegacyKeywords(items)
  {
    groups := [];
    legacyKeywords := [];
    for i := 0 to |items|
      invariant groups == ObjectGroups(items[..i])
      invariant legacyKeywords == LegacyKeywords(items[..i])
    {
      var item := items[i];
      ItemsPrefixSnoc(items, i);
      if item.Str? {
        var keyword := Trim(item.s);
        if |keyword| > 0 {
          legacyKeywords := legacyKeywords + [keyword];
        }
        continue;
      }
      if !item.Obj? && !item.Arr? {
        continue;
      }
      var nameField := Field(item, "name");
      var name := if nameField.Str? then Trim(nameField.s) else "";
      var keywords := TrimmedNonEmpty(RawKeywords(Field(item, "keywords")));
      assert ItemGroup(item) == if name == "" && keywords == [] then None else Some(SkillGroup(name, keywords));
      if name == "" && |keywords| == 0 {
        continue;
      }
      groups := groups + [SkillGroup(name, keywords)];
    }
    assert items[..|items|] == items;
  }

  /** A group as parsing produces it: trimmed name, clean keywords, and not both empty. */
  predicate IsCleanGroup(g: SkillGroup)
  {
    IsTrimmedBy(g.name, Js) && (forall k :: k in g.keywords ==> IsClean(k)) && (g.name != "" || g.keywords != [])
  }

  /** The group an item contributes, when it has one, is clean. */
  lemma ItemGroupClean(item: Json)
    requires ItemGroup(item).Some?
    ensures IsCleanGroup(ItemGroup(item).value)
  {
    var nameField := Field(item, "name");
    if nameField.Str? {
      TrimByTrimmed(nameField.s, Js);
    }
    TrimmedNonEmptyClean(RawKeywords(Field(item, "keywords")));
  }

  lemma {:induction false} ObjectGroupsClean(items: seq<Json>)
    ensures forall g :: g in ObjectGroups(items) ==> IsCleanGroup(g)
    ensures |ObjectGroups(items)| <= |items|
  {
    if items != [] {
      ObjectGroupsClean(items[..|items| - 1]);
      var item := items[|items| - 1];
      if ItemGroup(item).Some? {
        ItemGroupClean(item);
      }
    }
  }

  /** The bare keywords are the trimmed, non-empty string items, in order. */
  lemma {:induction false} LegacyKeywordsSpec(items: seq<Json>)
    ensures LegacyKeywords(items) == TrimmedNonEmpty(StringsOf(items))
  {
    if items != [] {
      var init := items[..|items| - 1];
      var last := items[|items| - 1];
      LegacyKeywordsSpec(init);
      assert LegacyKeywords(items) == LegacyKeywords(init) + AsSeq(LegacyKeyword(last));
      if last.Str? {
        assert StringsOf(items) == StringsOf(init) + [last.s];
        TrimmedNonEmptyAppend(StringsOf(init), [last.s]);
        assert TrimmedNonEmpty([last.s]) == AsSeq(LegacyKeyword(last)) by {
          assert [last.s][1..] == [];
        }
      } else {
        assert StringsOf(items) == StringsOf(init);
      }
    }
  }

  /**
    * Every parsed group is clean; the bare string items form one "Skills"
    * group placed after every object group, present exactly when some
    * string item is not blank.
    */
  lemma ParsedSkillsShape(items: seq<Json>)
    ensures forall g :: g in SkillsFromItems(items) ==> IsCleanGroup(g)
    ensures SkillsFromItems(items)[..|ObjectGroups(items)|] == ObjectGroups(items)
    ensures |SkillsFromItems(items)| == |ObjectGroups(items)| + (if TrimmedNonEmpty(StringsOf(items)) == [] then 0 else 1)
    ensures TrimmedNonEmpty(StringsOf(items)) != [] ==>
      SkillsFromItems(items)[|ObjectGroups(items)|] == SkillGroup("Skills", TrimmedNonEmpty(StringsOf(items)))
  {
    ObjectGroupsClean(items);
    LegacyKeywordsSpec(items);
    TrimmedNonEmptyClean(StringsOf(items));
    var legacy := LegacyKeywords(items);
    if legacy != [] {
      assert "Skills" == ['S', 'k', 'i', 'l', 'l', 's'];
      assert IsTrimmedBy("Skills", Js);
    }
  }

  /** Missing, blank, unparsable and non-array text all give no groups. */
  lemma ParsedSkillsEmpty(raw: Option<string>, parse: string -> Option<Json>)
    requires raw.None? || AllIn(raw.value, Js) || parse(raw.value).None? || !parse(raw.value).value.Arr?
    ensures ParsedSkills(raw, parse) == []
  {
    if raw.Some? {
      TrimEmpty(raw.value);
    }
  }

  // ---------------------------------------------------------------- serialising

  function KeywordsJson(keywords: seq<string>): Json
  {
    Arr(seq(|keywords|, j requires 0 <= j < |keywords| => Str(keywords[j])))
  }

  function GroupJson(g: SkillGroup): Json
  {
    Obj([("name", Str(g.name)), ("keywords", KeywordsJson(g.keywords))])
  }

  function GroupsJson(groups: seq<SkillGroup>): Json
  {
    Arr(seq(|groups|, i requires 0 <= i < |groups| => GroupJson(groups[i])))
  }

  /** `serializeTailoredSkills`: "" for no groups, else the JSON text; `stringify` stands for JSON.stringify. */
  function SerializeTailoredSkills(groups: seq<SkillGroup>, stringify: Json -> string): string
  {
    if groups == [] then "" else stringify(GroupsJson(groups))
  }

  lemma {:induction false} StringsOfAll(keywords: seq<string>)
    ensures StringsOf(KeywordsJson(keywords).items) == keywords
  {
    if keywords != [] {
      var init := keywords[..|keywords| - 1];
      StringsOfAll(init);
      assert KeywordsJson(keywords).items[..|keywords| - 1] == KeywordsJson(init).items;
    }
  }

  lemma GroupJsonFields(g: SkillGroup)
    ensures Field(GroupJson(g), "name") == Str(g.name)
    ensures Field(GroupJson(g), "keywords") == KeywordsJson(g.keywords)
  {
    var fields := GroupJson(g).fields;
    assert Get(fields, "keywords") == Some(KeywordsJson(g.keywords));
    assert |"name"| != |"keywords"|;
    assert fields[..1] == [("name", Str(g.name))];
    assert Get(fields[..1], "name") == Some(Str(g.name));
  }

  /** Clean keywords read back from their JSON array are the same keywords. */
  lemma CleanKeywordsBack(keywords: seq<string>)
    requires forall k :: k in keywords ==> IsClean(k)
    ensures TrimmedNonEmpty(RawKeywords(KeywordsJson(keywords))) == keywords
  {
    StringsOfAll(keywords);
    forall i | 0 <= i < |keywords| ensures IsClean(keywords[i]) {
      assert keywords[i] in keywords;
    }
    TrimmedNonEmptyOfClean(keywords);
  }

  /** A clean group read back from its JSON object is the same group. */
  lemma ItemGroupOfGroupJson(g: SkillGroup)
    requires IsCleanGroup(g)
    ensures ItemGroup(GroupJson(g)) == Some(g)
  {
    GroupJsonFields(g);
    TrimByOfTrimmed(g.name, Js);
    CleanKeywordsBack(g.keywords);
  }

  lemma GroupsJsonSnoc(init: seq<SkillGroup>, g: SkillGroup)
    ensures GroupsJson(init + [g]).items == GroupsJson(init).items + [GroupJson(g)]
  {
  }

  /** One more item adds its group, or its bare keyword, at the end. */
  lemma ItemsSnoc(items: seq<Json>, item: Json)
    ensures ObjectGroups(items + [item]) == ObjectGroups(items) + AsSeq(ItemGroup(item))
    ensures LegacyKeywords(items + [item]) == LegacyKeywords(items) + AsSeq(LegacyKeyword(item))
  {
    assert (items + [item])[..|items|] == items;
  }

  /** `ItemsSnoc` at a prefix of the items. */
  lemma ItemsPrefixSnoc(items: seq<Json>, i: nat)
    requires i < |items|
    ensures ObjectGroups(items[..i + 1]) == ObjectGroups(items[..i]) + AsSeq(ItemGroup(items[i]))
    ensures LegacyKeywords(items[..i + 1]) == LegacyKeywords(items[..i]) + AsSeq(LegacyKeyword(items[i]))
  {
    assert items[..i + 1] == items[..i] + [items[i]];
    ItemsSnoc(items[..i], items[i]);
  }

  lemma {:induction false} ObjectGroupsOfGroupsJson(groups: seq<SkillGroup>)
    requires forall g :: g in groups ==> IsCleanGroup(g)
    ensures ObjectGroups(GroupsJson(groups).items) == groups
    ensures LegacyKeywords(GroupsJson(groups).items) == []
  {
    if groups == [] {
      assert GroupsJson(groups).items == [];
    } else {
      var init := groups[..|groups| - 1];
      var g := groups[|groups| - 1];
      assert groups == init + [g];
      assert g in groups;
      ObjectGroupsOfGroupsJson(init);
      ItemGroupOfGroupJson(g);
      GroupsJsonSnoc(init, g);
      ItemsSnoc(GroupsJson(init).items, GroupJson(g));
    }
  }

  /**
    * Serialising clean groups and parsing the text gives the groups back,
    * when JSON.parse reads back what JSON.stringify wrote.
    */
  lemma SerializeParseRoundTrip(groups: seq<SkillGroup>, stringify: Json -> string, parse: string -> Option<Json>)
    requires forall g :: g in groups ==> IsCleanGroup(g)
    requires groups != [] ==> !AllIn(stringify(GroupsJson(groups)), Js)
    requires parse(stringify(GroupsJson(groups))) == Some(GroupsJson(groups))
    ensures ParsedSkills(Some(SerializeTailoredSkills(groups, stringify)), parse) == groups
  {
    if groups != [] {
      TrimEmpty(stringify(GroupsJson(groups)));
      ObjectGroupsOfGroupsJson(groups);
    }
  }

  // ---------------------------------------------------------------- editable groups

  /** What `toEditableSkillGroups` returns when the counter starts at `start`. */
  function EditableOf(groups: seq<SkillGroup>, start: nat): (r: seq<EditableSkillGroup>)
    ensures |r| == |groups|
  {
    seq(|groups|, i requires 0 <= i < |groups| =>
      EditableSkillGroup(DraftId(start + i + 1), groups[i].name, Join(groups[i].keywords, ", ")))
  }

  /** `toEditableSkillGroups`: each group gets a fresh id, its name, and its keywords joined with ", ". */
  method ToEditableSkillGroups(groups: seq<SkillGroup>, ids: DraftIdCounter) returns (editable: seq<EditableSkillGroup>)
    modifies ids
    ensures ids.count == old(ids.count) + |groups|
    ensures editable == EditableOf(groups, old(ids.count))
  {
    ghost var start := ids.count;
    editable := [];
    for i := 0 to |groups|
      invariant ids.count == start + i
      invariant editable == EditableOf(groups[..i], start)
    {
      var id := ids.CreateId();
      editable := editable + [EditableSkillGroup(id, groups[i].name, Join(groups[i].keywords, ", "))];
    }
    assert groups[..|groups|] == groups;
  }

  /** The ids handed out are pairwise distinct. */
  lemma EditableIdsDistinct(groups: seq<SkillGroup>, start: nat, i: nat, j: nat)
    requires i < j < |groups|
    ensures EditableOf(groups, start)[i].id != EditableOf(groups, start)[j].id
  {
    if DraftId(start + i + 1) == DraftId(start + j + 1) {
      DraftIdInjective(start + i + 1, start + j + 1);
    }
  }

  /** The group an edited entry turns into: trimmed name and comma-split keywords; None when both are empty. */
  function EditedGroup(e: EditableSkillGroup): Option<SkillGroup>
  {
    var name := Trim(e.name);
    var keywords := TrimmedNonEmpty(Split(e.keywordsText, {','}));
    if name == "" && keywords == [] then None else Some(SkillGroup(name, keywords))
  }

  /** What `fromEditableSkillGroups` returns. */
  function FromEditable(groups: seq<EditableSkillGroup>): seq<SkillGroup>
  {
    if groups == [] then [] else FromEditable(groups[..|groups| - 1]) + AsSeq(EditedGroup(groups[|groups| - 1]))
  }

  /** `fromEditableSkillGroups`: the loop pushing each non-empty edited group to `normalized`. */
  method FromEditableSkillGroups(groups: seq<EditableSkillGroup>) returns (normalized: seq<SkillGroup>)
    ensures normalized == FromEditable(groups)
  {
    normalized := [];
    for i := 0 to |groups|
      invariant normalized == FromEditable(groups[..i])
    {
      assert groups[..i + 1][..i] == groups[..i];
      var name := Trim(groups[i].name);
      var keywords := TrimmedNonEmpty(Split(groups[i].keywordsText, {','}));
      if name == "" && |keywords| == 0 {
        continue;
      }
      normalized := normalized + [SkillGroup(name, keywords)];
    }
    assert groups[..|groups|] == groups;
  }

  /** Every edited group is clean, and there are no more of them than entries. */
  lemma {:induction false} FromEditableClean(groups: seq<EditableSkillGroup>)
    ensures forall g :: g in FromEditable(groups) ==> IsCleanGroup(g)
    ensures |FromEditable(groups)| <= |groups|
  {
    if groups != [] {
      var e := groups[|groups| - 1];
      FromEditableClean(groups[..|groups| - 1]);
      assert FromEditable(groups) == FromEditable(groups[..|groups| - 1]) + AsSeq(EditedGroup(e));
      if EditedGroup(e).Some? {
        TrimByTrimmed(e.name, Js);
        TrimmedNonEmptyClean(Split(e.keywordsText, {','}));
        assert IsCleanGroup(EditedGroup(e).value);
      }
    }
  }

  /** Skipping leading whitespace in front of a word that does not start with it. */
  lemma {:induction false} TrimStartOverSpace(w: string, k: string)
    requires AllIn(w, Js) && (k == [] || !IsJsSpace(k[0]))
    ensures TrimStartBy(w + k, Js) == k
    decreases |w|
  {
    if w != [] {
      assert (w + k)[1..] == w[1..] + k;
      TrimStartOverSpace(w[1..], k);
    } else {
      assert w + k == k;
    }
  }

  /** A keyword as the editable form keeps it: trimmed, non-empty, free of ",". */
  predicate IsKeyword(k: string)
  {
    IsClean(k) && NoneIn(k, {','})
  }

  /** A string with no separator splits into itself. */
  lemma SplitFree(s: string, seps: set<char>)
    requires NoneIn(s, seps)
    ensures Split(s, seps) == [s]
  {
  }

  lemma NoneInConcat(a: string, b: string, cs: set<char>)
    requires NoneIn(a, cs) && NoneIn(b, cs)
    ensures NoneIn(a + b, cs)
  {
    forall i | 0 <= i < |a + b| ensures (a + b)[i] !in cs {
      if i >= |a| {
        assert (a + b)[i] == b[i - |a|];
      }
    }
  }

  /** A keyword after leading whitespace trims back to the keyword. */
  lemma TrimOverSpace(w: string, k: string)
    requires AllIn(w, Js) && IsClean(k)
    ensures Trim(w + k) == k
  {
    TrimStartOverSpace(w, k);
    TrimByOfTrimmed(k, Js);
  }

  /** Joining with ", " puts a "," and then a space between the first keyword and the rest. */
  lemma JoinCommaSpace(k: string, tail: seq<string>)
    requires tail != []
    ensures Join([k] + tail, ", ") == k + [','] + (" " + Join(tail, ", "))
  {
    JoinCons(k, tail, ", ");
  }

  lemma JoinedAfter(w: string, k: string, tail: seq<string>)
    requires tail != []
    ensures w + Join([k] + tail, ", ") == (w + k) + [','] + (" " + Join(tail, ", "))
  {
    JoinCommaSpace(k, tail);
  }

  /** The first comma-free piece, after whitespace, reads back as the keyword. */
  lemma FirstPiece(w: string, k: string)
    requires AllIn(w, Js) && IsKeyword(k)
    ensures TrimmedNonEmpty(Split(w + k, {','})) == [k]
  {
    assert NoneIn(w, {','});
    NoneInConcat(w, k, {','});
    SplitFree(w + k, {','});
    TrimOverSpace(w, k);
  }

  lemma SpaceIsBlank()
    ensures AllIn(" ", Js)
  {
    assert " "[0] == ' ';
  }

  /** Reading back keywords joined with ", " after any run of whitespace gives them back. */
  lemma {:induction false} KeywordsTextRoundTrip(w: string, keywords: seq<string>)
    requires AllIn(w, Js)
    requires forall k :: k in keywords ==> IsKeyword(k)
    ensures TrimmedNonEmpty(Split(w + Join(keywords, ", "), {','})) == keywords
    decreases |keywords|
  {
    if keywords == [] {
      assert w + Join(keywords, ", ") == w;
      assert NoneIn(w, {','});
      SplitFree(w, {','});
      TrimEmpty(w);
    } else {
      var k := keywords[0];
      var tail := keywords[1..];
      assert keywords == [k] + tail;
      assert k in keywords;
      FirstPiece(w, k);
      if tail == [] {
        assert w + Join(keywords, ", ") == w + k;
      } else {
        var rest := Join(tail, ", ");
        JoinedAfter(w, k, tail);
        SplitAppend(w + k, ',', " " + rest, {','});
        TrimmedNonEmptyAppend(Split(w + k, {','}), Split(" " + rest, {','}));
        assert forall x :: x in tail ==> x in keywords;
        SpaceIsBlank();
        KeywordsTextRoundTrip(" ", tail);
      }
    }
  }

  /** A group the editable form carries unchanged: clean, with comma-free keywords. */
  predicate IsEditableGroup(g: SkillGroup)
  {
    IsCleanGroup(g) && forall k :: k in g.keywords ==> NoneIn(k, {','})
  }

  lemma EditableOfSnoc(init: seq<SkillGroup>, g: SkillGroup, start: nat)
    ensures EditableOf(init + [g], start) ==
      EditableOf(init, start) + [EditableSkillGroup(DraftId(start + |init| + 1), g.name, Join(g.keywords, ", "))]
  {
  }

  lemma FromEditableSnoc(init: seq<EditableSkillGroup>, e: EditableSkillGroup)
    ensures FromEditable(init + [e]) == FromEditable(init) + AsSeq(EditedGroup(e))
  {
    assert (init + [e])[..|init|] == init;
  }

  /** An editable entry made from a group reads back as that group, whatever its id. */
  lemma EditedGroupOfEditable(g: SkillGroup, id: string)
    requires IsEditableGroup(g)
    ensures EditedGroup(EditableSkillGroup(id, g.name, Join(g.keywords, ", "))) == Some(g)
  {
    TrimByOfTrimmed(g.name, Js);
    assert "" + Join(g.keywords, ", ") == Join(g.keywords, ", ");
    assert AllIn("", Js);
    KeywordsTextRoundTrip("", g.keywords);
  }

  /** Turning clean groups into editable entries and back gives the same groups, whatever ids they got. */
  lemma {:induction false} EditableRoundTrip(groups: seq<SkillGroup>, start: nat)
    requires forall g :: g in groups ==> IsEditableGroup(g)
    ensures FromEditable(EditableOf(groups, start)) == groups
  {
    if groups == [] {
      assert EditableOf(groups, start) == [];
    } else {
      var init := groups[..|groups| - 1];
      var g := groups[|groups| - 1];
      assert groups == init + [g];
      assert g in groups;
      EditableRoundTrip(init, start);
      EditableOfSnoc(init, g, start);
      var e := EditableSkillGroup(DraftId(start + |init| + 1), g.name, Join(g.keywords, ", "));
      FromEditableSnoc(EditableOf(init, start), e);
      EditedGroupOfEditable(g, e.id);
    }
  }
}
