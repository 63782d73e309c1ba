/**
 The text and list extractors of the AIEOS identity normaliser: scalars, object
 summaries, flattened lists and case-insensitive de-duplication.
 */
module IdentityText {
  import opened Wrappers
  import opened Text
  import opened Json

  // ── De-duplication ─────────────────────────────────────────────────────

  predicate SameIgnoringCase(a: string, b: string) {
    Lower(a) == Lower(b)
  }

  predicate Known(list: seq<string>, text: string) {
    exists i :: 0 <= i < |list| && SameIgnoringCase(list[i], text)
  }

  /** Solid strings, no two equal up to ASCII case. */
  predicate CleanList(list: seq<string>) {
    && (forall i :: 0 <= i < |list| ==> Solid(list[i]))
    && (forall i, j :: 0 <= i < j < |list| ==> !SameIgnoringCase(list[i], list[j]))
  }

  /** The trimmed non-blank values, keeping the first of each case-insensitive class. */
  function Deduped(values: seq<string>): (r: seq<string>)
    ensures CleanList(r)
  {
    if values == [] then []
    else
      var list := Deduped(values[..|values| - 1]);
      var text := Trim(values[|values| - 1]);
      TrimTrimmed(values[|values| - 1]);
      if text == "" || Known(list, text) then list else list + [text]
  }

  lemma LastIsNew(list: seq<string>)
    requires CleanList(list) && list != []
    ensures var last := |list| - 1;
      CleanList(list[..last]) && !Known(list[..last], list[last]) && Solid(list[last]) && Trim(list[last]) == list[last]
  {
    hide SameIgnoringCase, Trim;
    var last := |list| - 1;
    assert forall i :: 0 <= i < last ==> list[..last][i] == list[i];
    TrimFixed(list[last]);
  }

  lemma DedupedSnoc(values: seq<string>)
    requires values != []
    ensures var list, text := Deduped(values[..|values| - 1]), Trim(values[|values| - 1]);
      Deduped(values) == if text == "" || Known(list, text) then list else list + [text]
  {
    hide Known, Trim, CleanList;
  }

  lemma {:induction false} DedupedFixed(list: seq<string>)
    requires CleanList(list)
    ensures Deduped(list) == list
    decreases |list|
  {
    hide Trim, Known, Deduped, CleanList;
    if list == [] {
      DedupedNothing();
    } else {
      LastIsNew(list);
      DedupedFixed(list[..|list| - 1]);
      DedupedSnoc(list);
      assert list == list[..|list| - 1] + [list[|list| - 1]];
    }
  }

  lemma DedupedNothing()
    ensures Deduped([]) == []
  {
  }

  /** Every non-blank value keeps a representative, which is the first of its class. */
  lemma {:induction false} DedupedRepresents(values: seq<string>, k: nat)
    requires k < |values| && Trim(values[k]) != ""
    ensures Known(Deduped(values), Trim(values[k]))
    ensures !Known(Deduped(values[..k]), Trim(values[k])) ==> Trim(values[k]) in Deduped(values)
    decreases |values|
  {
    var init := values[..|values| - 1];
    if k < |init| {
      DedupedRepresents(init, k);
      assert init[..k] == values[..k];
      assert Deduped(init) <= Deduped(values);
      var i :| 0 <= i < |Deduped(init)| && SameIgnoringCase(Deduped(init)[i], Trim(values[k]));
      assert SameIgnoringCase(Deduped(values)[i], Trim(values[k]));
    } else {
      var list := Deduped(values);
      assert init == values[..k];
      if !Known(Deduped(init), Trim(values[k])) {
        assert SameIgnoringCase(list[|list| - 1], Trim(values[k]));
      }
    }
  }

  method DedupeNonEmpty(values: seq<string>) returns (deduped: seq<string>)
    ensures deduped == Deduped(values)
  {
    deduped := [];
    for i := 0 to |values|
      invariant deduped == Deduped(values[..i])
    {
      assert values[..i + 1][..i] == values[..i];
      var trimmed := Trim(values[i]);
      if trimmed == "" {
        continue;
      }
      if !Known(deduped, trimmed) {
        deduped := deduped + [trimmed];
      }
    }
    assert values[..|values|] == values;
  }

  // ── Scalars, lists and summaries ───────────────────────────────────────

  function ScalarToString(fl: Floats, v: Json): (r: Option<string>)
    ensures r.Some? ==> Solid(r.value)
    ensures v.Str? && Solid(v.s) ==> r == Some(v.s)
    ensures v.Null? || v.Arr? || v.Obj? ==> r.None?
  {
    match v
    case Str(s) =>
      TrimTrimmed(s);
      assert Solid(s) ==> Trim(s) == s by { if Solid(s) { TrimFixed(s); } }
      if Trim(s) == "" then None else Some(Trim(s))
    case Num(n) => Some(fl.show(n))
    case Bool(b) => Some(if b then "true" else "false")
    case _ => None
  }

  /** `list_from_value`: a value flattened to a clean list of strings. */
  function ValueList(fl: Floats, v: Json): (r: seq<string>)
    ensures CleanList(r)
    decreases v, 1
  {
    match v
    case Arr(items) => Deduped(ItemsList(fl, items))
    case Obj(fields) => Deduped(NameTitleOrSummary(fl, fields))
    case _ =>
      match ScalarToString(fl, v)
      case Some(text) => Deduped([text])
      case None => []
  }

  function ItemsList(fl: Floats, items: seq<Json>): seq<string>
    decreases items, 0
  {
    if items == [] then []
    else ItemsList(fl, items[..|items| - 1]) + ValueList(fl, items[|items| - 1])
  }

  /** An object in a list is represented by its name, else its title, else its summary. */
  function NameTitleOrSummary(fl: Floats, fields: seq<Field>): seq<string>
    decreases fields, 2
  {
    match ScalarAt(fl, fields, "name")
    case Some(name) => [name]
    case None =>
      match ScalarAt(fl, fields, "title")
      case Some(title) => [title]
      case None =>
        var parts := SummaryParts(fl, "", fields);
        if parts == [] then [] else [Join(parts, "; ")]
  }

  function ScalarAt(fl: Floats, fields: seq<Field>, key: string): (r: Option<string>)
    ensures r.Some? ==> Solid(r.value)
  {
    match Get(fields, key)
    case Some(v) => ScalarToString(fl, v)
    case None => None
  }

  predicate Meta(key: string) {
    StartsWith(key, "@")
  }

  /** A key with underscores shown as spaces. */
  function Label(key: string): (r: string)
    ensures |r| == |key| && forall i :: 0 <= i < |key| ==> r[i] == if key[i] == '_' then ' ' else key[i]
  {
    seq(|key|, i requires 0 <= i < |key| => if key[i] == '_' then ' ' else key[i])
  }

  function FullLabel(prefix: string, key: string): string {
    if prefix == "" then Label(key) else prefix + " " + Label(key)
  }

  function SummaryParts(fl: Floats, prefix: string, fields: seq<Field>): seq<string>
    decreases fields, 1
  {
    if fields == [] then []
    else SummaryParts(fl, prefix, fields[..|fields| - 1]) + FieldParts(fl, prefix, fields[|fields| - 1])
  }

  function FieldParts(fl: Floats, prefix: string, f: Field): seq<string>
    decreases f, 2
  {
    if Meta(f.key) then []
    else
      var heading := FullLabel(prefix, f.key);
      match f.value
      case Obj(inner) => SummaryParts(fl, heading, inner)
      case _ =>
        match LeafText(fl, f.value)
        case Some(text) => [heading + ": " + text]
        case None => []
  }

  /** What a non-object field contributes to a summary. */
  function LeafText(fl: Floats, v: Json): (r: Option<string>)
    requires !v.Obj?
    ensures r.Some? ==> Solid(r.value)
    decreases v, 2
  {
    match v
    case Arr(items) =>
      var values := ValueList(fl, v);
      if values == [] then None
      else
        JoinSolid(values, ", ");
        Some(Join(values, ", "))
    case _ => ScalarToString(fl, v)
  }

  /** The label of the first part a summary emits. */
  function LeadLabel(fl: Floats, prefix: string, fields: seq<Field>): (r: Option<string>)
    ensures var parts := SummaryParts(fl, prefix, fields);
      match r
      case None => parts == []
      case Some(heading) => parts != [] && heading + ":" <= parts[0]
    ensures forall p :: p in SummaryParts(fl, prefix, fields) ==> p != "" && !IsSpace(p[|p| - 1])
    ensures r.Some? ==> prefix <= r.value
    decreases fields, 1
  {
    if fields == [] then None
    else
      var last := fields[|fields| - 1];
      var lastLead := FieldLead(fl, prefix, last);
      match LeadLabel(fl, prefix, fields[..|fields| - 1])
      case Some(heading) => Some(heading)
      case None => lastLead
  }

  function FieldLead(fl: Floats, prefix: string, f: Field): (r: Option<string>)
    ensures var parts := FieldParts(fl, prefix, f);
      match r
      case None => parts == []
      case Some(heading) => parts != [] && heading + ":" <= parts[0]
    ensures forall p :: p in FieldParts(fl, prefix, f) ==> p != "" && !IsSpace(p[|p| - 1])
    ensures r.Some? ==> prefix <= r.value
    decreases f, 2
  {
    if Meta(f.key) then None
    else
      var heading := FullLabel(prefix, f.key);
      match f.value
      case Obj(inner) => LeadLabel(fl, heading, inner)
      case _ => if LeafText(fl, f.value).None? then None else Some(heading)
  }

  /**
   A value whose summary would begin with white space: an object whose first
   contributing label, underscores shown as spaces, does so.
   */
  predicate Padded(fl: Floats, v: Json) {
    && v.Obj?
    && var lead := LeadLabel(fl, "", v.fields);
       lead.Some? && lead.value != "" && IsSpace(lead.value[0])
  }

  function ValueToText(fl: Floats, v: Json): (r: Option<string>)
    ensures r.Some? ==> r.value != "" && (Trimmed(r.value) <==> !Padded(fl, v))
    ensures v.Str? && Solid(v.s) ==> r == Some(v.s)
    ensures v.Null? ==> r.None?
    ensures Padded(fl, v) ==> r.Some?
  {
    match v
    case Obj(fields) =>
      var parts := SummaryParts(fl, "", fields);
      if parts == [] then None
      else
        var lead := LeadLabel(fl, "", fields);
        SummaryEnds(parts);
        assert (lead.value + ":")[0] == Join(parts, "; ")[0];
        Some(Join(parts, "; "))
    case _ => LeafText(fl, v)
  }

  lemma SummaryEnds(parts: seq<string>)
    requires parts != [] && forall p :: p in parts ==> p != "" && !IsSpace(p[|p| - 1])
    ensures var s := Join(parts, "; "); s != "" && s[0] == parts[0][0] && !IsSpace(s[|s| - 1])
  {
    JoinEnds(parts, "; ");
    var all := Join(parts, "; ");
    var last := parts[|parts| - 1];
    assert all[|all| - 1] == all[|all| - |last|..][|last| - 1];
  }

  function StrArray(list: seq<string>): Json {
    Arr(seq(|list|, i requires 0 <= i < |list| => Str(list[i])))
  }

  lemma StringItem(fl: Floats, text: string)
    requires Solid(text)
    ensures ValueList(fl, Str(text)) == [text]
  {
    hide Deduped;
    assert CleanList([text]);
    DedupedFixed([text]);
  }

  lemma {:induction false} ItemsOfStrings(fl: Floats, items: seq<Json>, list: seq<string>)
    requires |items| == |list|
    requires forall i :: 0 <= i < |list| ==> items[i] == Str(list[i]) && Solid(list[i])
    ensures ItemsList(fl, items) == list
    decreases |list|
  {
    hide ValueList, Solid;
    if list != [] {
      var last := |list| - 1;
      ItemsOfStrings(fl, items[..last], list[..last]);
      StringItem(fl, list[last]);
      assert list == list[..last] + [list[last]];
    }
  }

  /** A clean list survives being written as a JSON array and flattened again. */
  lemma ListRoundTrip(fl: Floats, list: seq<string>)
    requires CleanList(list)
    ensures ValueList(fl, StrArray(list)) == list
  {
    ItemsOfStrings(fl, StrArray(list).items, list);
    DedupedFixed(list);
  }

  /** No key anywhere in the value begins with an underscore or white space. */
  predicate PlainKeys(v: Json) {
    match v
    case Arr(items) => forall i :: 0 <= i < |items| ==> PlainKeys(items[i])
    case Obj(fields) => forall i :: 0 <= i < |fields| ==> PlainKey(fields[i].key) && PlainKeys(fields[i].value)
    case _ => true
  }

  predicate PlainKey(key: string) {
    key != "" ==> key[0] != '_' && !IsSpace(key[0])
  }

  lemma PlainLabel(prefix: string, key: string)
    requires PlainKey(key) && (prefix != "" ==> !IsSpace(prefix[0]))
    ensures FullLabel(prefix, key) != "" ==> !IsSpace(FullLabel(prefix, key)[0])
  {
  }

  lemma LeadOf(fl: Floats, prefix: string, fields: seq<Field>)
    requires fields != []
    ensures var init, last := fields[..|fields| - 1], fields[|fields| - 1];
      LeadLabel(fl, prefix, fields) ==
        if LeadLabel(fl, prefix, init).Some? then LeadLabel(fl, prefix, init) else FieldLead(fl, prefix, last)
  {
    hide SummaryParts, FieldParts, FieldLead;
  }

  lemma FieldLeadOf(fl: Floats, prefix: string, f: Field)
    ensures var heading := FullLabel(prefix, f.key);
      || FieldLead(fl, prefix, f) == None || FieldLead(fl, prefix, f) == Some(heading)
      || (f.value.Obj? && FieldLead(fl, prefix, f) == LeadLabel(fl, heading, f.value.fields))
  {
    hide SummaryParts, FieldParts, FullLabel, LeadLabel;
  }

  /** Plain keys never give a padded summary. */
  lemma {:induction false} PlainKeysNotPadded(fl: Floats, prefix: string, fields: seq<Field>)
    requires PlainKeys(Obj(fields))
    requires prefix != "" ==> !IsSpace(prefix[0])
    ensures var lead := LeadLabel(fl, prefix, fields); lead.Some? && lead.value != "" ==> !IsSpace(lead.value[0])
    decreases fields
  {
    hide SummaryParts, FieldParts, FullLabel, PlainKey, FieldLead;
    if fields != [] {
      var f := fields[|fields| - 1];
      LeadOf(fl, prefix, fields);
      FieldLeadOf(fl, prefix, f);
      PlainKeysNotPadded(fl, prefix, fields[..|fields| - 1]);
      PlainLabel(prefix, f.key);
      if f.value.Obj? {
        PlainKeysNotPadded(fl, FullLabel(prefix, f.key), f.value.fields);
      }
    }
  }

  // ── The loops of the source, against the definitions above ─────────────

  method ListFromValue(fl: Floats, value: Json) returns (list: seq<string>)
    ensures list == ValueList(fl, value)
    decreases value, 1
  {
    var values := [];
    if value.Arr? {
      for i := 0 to |value.items|
        invariant values == ItemsList(fl, value.items[..i])
      {
        assert value.items[..i + 1][..i] == value.items[..i];
        var inner := ListFromValue(fl, value.items[i]);
        values := values + inner;
      }
      assert value.items[..|value.items|] == value.items;
    } else if value.Obj? {
      var name := ScalarAt(fl, value.fields, "name");
      var title := ScalarAt(fl, value.fields, "title");
      if name.Some? {
        values := [name.value];
      } else if title.Some? {
        values := [title.value];
      } else {
        var parts := SummarizeObjectIntoParts(fl, "", value.fields, []);
        assert parts == SummaryParts(fl, "", value.fields);
        if parts != [] {
          values := [Join(parts, "; ")];
        }
      }
      assert values == NameTitleOrSummary(fl, value.fields);
    } else {
      var text := ScalarToString(fl, value);
      if text.Some? {
        values := [text.value];
      }
    }
    list := DedupeNonEmpty(values);
  }

  lemma NoSummary(fl: Floats, prefix: string)
    ensures SummaryParts(fl, prefix, []) == []
  {
  }

  lemma SummarySnoc(fl: Floats, prefix: string, fields: seq<Field>, i: nat)
    requires i < |fields|
    ensures SummaryParts(fl, prefix, fields[..i + 1]) == SummaryParts(fl, prefix, fields[..i]) + FieldParts(fl, prefix, fields[i])
  {
    hide FieldParts;
    assert fields[..i + 1][..i] == fields[..i];
  }

  /** What a field adds to a summary, case by case. */
  lemma FieldPartsOf(fl: Floats, prefix: string, f: Field)
    ensures var heading, parts := FullLabel(prefix, f.key), FieldParts(fl, prefix, f);
      && (Meta(f.key) ==> parts == [])
      && (!Meta(f.key) && f.value.Obj? ==> parts == SummaryParts(fl, heading, f.value.fields))
      && (!Meta(f.key) && f.value.Arr? ==>
            parts == if ValueList(fl, f.value) == [] then [] else [heading + ": " + Join(ValueList(fl, f.value), ", ")])
      && (!Meta(f.key) && !f.value.Obj? && !f.value.Arr? ==>
            parts == match ScalarToString(fl, f.value) { case Some(text) => [heading + ": " + text] case None => [] })
  {
    hide SummaryParts, ValueList, Join, FullLabel, Meta;
  }

  method SummarizeObjectIntoParts(fl: Floats, prefix: string, fields: seq<Field>, before: seq<string>)
    returns (parts: seq<string>)
    ensures parts == before + SummaryParts(fl, prefix, fields)
    decreases fields, 0
  {
    hide SummaryParts, FieldParts, LeafText, FullLabel, Meta;
    parts := before;
    NoSummary(fl, prefix);
    assert fields[..0] == [] && before + [] == before;
    for i := 0 to |fields|
      invariant parts == before + SummaryParts(fl, prefix, fields[..i])
    {
      var f := fields[i];
      ghost var was, more := parts, FieldParts(fl, prefix, f);
      SummarySnoc(fl, prefix, fields, i);
      FieldPartsOf(fl, prefix, f);
      Assoc(before, SummaryParts(fl, prefix, fields[..i]), more);
      if Meta(f.key) {
        continue;
      }
      var heading := FullLabel(prefix, f.key);
      if f.value.Obj? {
        parts := SummarizeObjectIntoParts(fl, heading, f.value.fields, parts);
      } else if f.value.Arr? {
        var values := ListFromValue(fl, f.value);
        if values != [] {
          parts := parts + [heading + ": " + Join(values, ", ")];
        }
      } else {
        var text := ScalarToString(fl, f.value);
        if text.Some? {
          parts := parts + [heading + ": " + text.value];
        }
      }
      assert parts == was + more;
    }
    assert fields[..|fields|] == fields;
  }
}
