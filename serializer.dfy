/** Record serializer: turns a search-index record into the row of the CSV
    summary and into the REST-style document written to the JSONL files.
    Each normalisation step takes the record (a map from key to value) and
    returns the updated record, or the exception Python would raise. */
module Serializer {
  import opened Py

  type Record = map<string, Json>

  // ---------------------------------------------------------------------------
  // csv_serialize

  /** The four attributes the CSV summary reads, in the order the code reads them. */
  const CsvSourceFields: seq<string> := ["uid", "aasm_state", "client_id", "updated"]

  /** `csv_serialize`: attribute access on the hit raises `AttributeError` for the
      first of the four fields it lacks. */
  function CsvSerialize(hit: Record): (r: Result<Record>)
    ensures r.Ok? <==> forall f :: f in CsvSourceFields ==> f in hit
    ensures r.Err? ==> r.error.AttributeError? && r.error.name in CsvSourceFields && r.error.name !in hit
    ensures r.Ok? ==> r.value.Keys == {"doi", "state", "client_id", "updated"}
    ensures r.Ok? ==> (r.value["doi"] == hit["uid"] && r.value["state"] == hit["aasm_state"]
                    && r.value["client_id"] == hit["client_id"] && r.value["updated"] == hit["updated"])
  {
    if "uid" !in hit then Err(AttributeError("uid"))
    else if "aasm_state" !in hit then Err(AttributeError("aasm_state"))
    else if "client_id" !in hit then Err(AttributeError("client_id"))
    else if "updated" !in hit then Err(AttributeError("updated"))
    else Ok(map["doi" := hit["uid"], "state" := hit["aasm_state"],
                "client_id" := hit["client_id"], "updated" := hit["updated"]])
  }

  // ---------------------------------------------------------------------------
  // wrap_array_fields

  const ArrayFields: seq<string> :=
    ["creators", "contributors", "rightsList", "fundingReferences", "identifiers",
     "relatedIdentifiers", "relatedItems", "geoLocations", "dates", "subjects",
     "sizes", "titles", "descriptions", "formats"]

  /** What a present, non-list array field becomes: a one-element list when truthy, else `[]`. */
  function Wrapped(v: Json): (w: Json)
    ensures w.JArr?
    ensures Truthy(v) ==> w.items == [v]
    ensures !Truthy(v) ==> w.items == []
  {
    if Truthy(v) then JArr([v]) else JArr([])
  }

  /** One pass of the loop body for `field`. */
  function WrapField(r: Record, field: string): Record {
    if field in r && !r[field].JArr? then r[field := Wrapped(r[field])] else r
  }

  /** The loop over `fields`, in order. */
  function WrapFields(r: Record, fields: seq<string>): Record
    decreases |fields|
  {
    if fields == [] then r else WrapFields(WrapField(r, fields[0]), fields[1..])
  }

  /** Whatever the field list (repeats included), the loop wraps exactly the
      listed, present, non-list fields and leaves every other entry alone. */
  lemma {:induction false} WrapFieldsPointwise(r: Record, fields: seq<string>)
    ensures WrapFields(r, fields).Keys == r.Keys
    ensures forall k :: k in r ==>
      WrapFields(r, fields)[k] == if k in fields && !r[k].JArr? then Wrapped(r[k]) else r[k]
    decreases |fields|
  {
    if fields != [] {
      var r1 := WrapField(r, fields[0]);
      WrapFieldsPointwise(r1, fields[1..]);
      forall k | k in r
        ensures WrapFields(r, fields)[k] == if k in fields && !r[k].JArr? then Wrapped(r[k]) else r[k]
      {
        assert k in fields <==> k == fields[0] || k in fields[1..];
      }
    }
  }

  /** `wrap_array_fields`. */
  function WrapArrayFields(r: Record): (w: Record)
    ensures w.Keys == r.Keys
    ensures forall k :: k in r ==>
      w[k] == if k in ArrayFields && !r[k].JArr? then Wrapped(r[k]) else r[k]
  {
    WrapFieldsPointwise(r, ArrayFields);
    WrapFields(r, ArrayFields)
  }

  /** After wrapping, every listed field that is present holds a list. */
  lemma WrapArrayFieldsMakesLists(r: Record, k: string)
    requires k in ArrayFields && k in r
    ensures WrapArrayFields(r)[k].JArr?
  {
  }

  /** Running the loop a second time changes nothing. */
  lemma WrapFieldsIdempotent(r: Record, fields: seq<string>)
    ensures WrapFields(WrapFields(r, fields), fields) == WrapFields(r, fields)
  {
    var w := WrapFields(r, fields);
    WrapFieldsPointwise(r, fields);
    WrapFieldsPointwise(w, fields);
    var w2 := WrapFields(w, fields);
    forall k | k in w ensures w2[k] == w[k] {
      if k in fields {
        assert w[k].JArr?;
      }
    }
  }

  lemma WrapArrayFieldsIdempotent(r: Record)
    ensures WrapArrayFields(WrapArrayFields(r)) == WrapArrayFields(r)
  {
    WrapFieldsIdempotent(r, ArrayFields);
  }

  // ---------------------------------------------------------------------------
  // populate_empty_fields

  const DictionaryFields: seq<string> := ["container", "types"]

  function FillEmpty(r: Record, field: string): Record {
    if field !in r || !Truthy(r[field]) then r[field := JObj(map[])] else r
  }

  /** `populate_empty_fields`: `container` and `types` end up present; a missing or
      falsy one becomes `{}`, a truthy one and every other entry are kept. */
  function PopulateEmptyFields(r: Record): (p: Record)
    ensures p.Keys == r.Keys + {"container", "types"}
    ensures forall k :: k in p ==>
      p[k] == if k in DictionaryFields && (k !in r || !Truthy(r[k])) then JObj(map[]) else r[k]
  {
    FillEmpty(FillEmpty(r, "container"), "types")
  }

  lemma PopulateEmptyFieldsIdempotent(r: Record)
    ensures PopulateEmptyFields(PopulateEmptyFields(r)) == PopulateEmptyFields(r)
  {
    var p := PopulateEmptyFields(r);
    assert forall k :: k in p ==> PopulateEmptyFields(p)[k] == p[k];
  }

  // ---------------------------------------------------------------------------
  // populate_published

  /** `"dateType" in date and date["dateType"] in ["Issued", "issued"]` holds. */
  predicate IsIssued(e: Json) {
    e.JObj? && "dateType" in e.fields
    && (e.fields["dateType"] == JStr("Issued") || e.fields["dateType"] == JStr("issued"))
  }

  /** The same test raises `TypeError` on this entry: `in` on a scalar, or a
      string/list that passes `"dateType" in date` but cannot be indexed by it. */
  predicate DateEntryRaises(e: Json) {
    match e
    case JObj(_) => false
    case JStr(s) => Substring("dateType", s)
    case JArr(xs) => JStr("dateType") in xs
    case _ => true
  }

  /** The entry ends the scan: it raises or it matches. */
  predicate EndsScan(e: Json) {
    DateEntryRaises(e) || IsIssued(e)
  }

  /** `date.get("date", None)` for a matching entry, or the exception of a raising one. */
  function ScanResult(e: Json): Result<Json>
    requires EndsScan(e)
  {
    if DateEntryRaises(e) then Err(TypeError) else Ok(Get(e.fields, "date"))
  }

  /** The `for date in record["dates"]` loop over a list, with its `break`: the
      first entry that ends the scan decides the result; with none, `p_date`
      keeps its initial `None`. */
  function FirstIssued(dates: seq<Json>): (r: Result<Json>)
    ensures (forall j :: 0 <= j < |dates| ==> !EndsScan(dates[j])) ==> r == Ok(JNull)
    ensures forall i :: (0 <= i < |dates| && EndsScan(dates[i])
                         && forall j :: 0 <= j < i ==> !EndsScan(dates[j])) ==> r == ScanResult(dates[i])
    decreases |dates|
  {
    if dates == [] then Ok(JNull)
    else if DateEntryRaises(dates[0]) then Err(TypeError)
    else if IsIssued(dates[0]) then Ok(Get(dates[0].fields, "date"))
    else FirstIssued(dates[1..])
  }

  /** The loop over `record["dates"]` whatever it holds: a string is walked one
      character at a time (no character contains "dateType"), a dict by its keys. */
  function IssuedDate(dates: Json): Result<Json> {
    match dates
    case JArr(xs) => FirstIssued(xs)
    case JStr(_) => Ok(JNull)
    case JObj(m) => if exists k :: k in m && Substring("dateType", k) then Err(TypeError) else Ok(JNull)
    case _ => Err(TypeError)
  }

  /** `str(v)` for the values it is applied to here. */
  function PyStr(v: Json): (r: Result<string>)
    ensures v.JInt? ==> r == Ok(IntToString(v.i))
    ensures v.JStr? ==> r == Ok(v.s)
  {
    match v
    case JNull => Ok("None")
    case JBool(b) => Ok(if b then "True" else "False")
    case JInt(i) => Ok(IntToString(i))
    case JStr(s) => Ok(s)
    case _ => Err(ReprNotModelled)
  }

  /** `populate_published`. */
  function PopulatePublished(r: Record): (p: Result<Record>)
    ensures "dates" !in r ==> p == Err(KeyError("dates"))
    ensures p.Ok? ==> p.value.Keys == r.Keys + {"published"}
    ensures p.Ok? ==> forall k :: k in r && k != "published" ==> p.value[k] == r[k]
  {
    if "dates" !in r then Err(KeyError("dates"))
    else
      var issued :- IssuedDate(r["dates"]);
      if !Truthy(issued) && "publicationYear" in r && Truthy(r["publicationYear"]) then
        var year :- PyStr(r["publicationYear"]);
        Ok(r["published" := JStr(year)])
      else
        Ok(r["published" := issued])
  }

  /** The publication rule over a list of dates: the first "Issued"/"issued" entry
      wins even when it has no date; a falsy result falls back to the publication
      year as text when that is truthy; otherwise the falsy result stays. */
  lemma {:induction false} PublishedRule(r: Record, i: int)
    requires "dates" in r && r["dates"].JArr?
    requires var ds := r["dates"].items;
      (0 <= i < |ds| && IsIssued(ds[i]) && forall j :: 0 <= j < i ==> !EndsScan(ds[j]))
      || (i == -1 && forall j :: 0 <= j < |ds| ==> !EndsScan(ds[j]))
    requires "publicationYear" in r && Truthy(r["publicationYear"]) ==> PyStr(r["publicationYear"]).Ok?
    ensures var ds := r["dates"].items;
      var issued := if i == -1 then JNull else Get(ds[i].fields, "date");
      PopulatePublished(r) == Ok(r["published" :=
        if !Truthy(issued) && "publicationYear" in r && Truthy(r["publicationYear"])
        then JStr(PyStr(r["publicationYear"]).value)
        else issued])
  {
    var ds := r["dates"].items;
    if i == -1 {
      assert FirstIssued(ds) == Ok(JNull);
    } else {
      assert FirstIssued(ds) == ScanResult(ds[i]);
    }
  }

  // ---------------------------------------------------------------------------
  // populate_identifiers

  /** The comprehension's condition, `r.get("identifier", None) not in [doi, url]`. */
  predicate KeepIdentifier(e: Json, doi: Json, url: Json)
    requires e.JObj?
  {
    !InPair(Get(e.fields, "identifier"), doi, url)
  }

  predicate IsSubsequence(a: seq<Json>, b: seq<Json>)
    decreases |b|
  {
    a == [] || (b != [] && ((a[0] == b[0] && IsSubsequence(a[1..], b[1..])) || IsSubsequence(a, b[1..])))
  }

  /** The comprehension over a list. For each element, in order: `.get` needs a
      dict, then `record["doi"]` and `record["url"]` are looked up. */
  function FilterIdentifiers(xs: seq<Json>, r: Record): (res: Result<seq<Json>>)
    ensures res.Ok? <==> (forall i :: 0 <= i < |xs| ==> xs[i].JObj?) && (xs == [] || ("doi" in r && "url" in r))
    ensures res.Ok? ==> forall e :: e in res.value ==> e in xs && e.JObj? && KeepIdentifier(e, r["doi"], r["url"])
    ensures res.Ok? ==> forall i :: 0 <= i < |xs| && KeepIdentifier(xs[i], r["doi"], r["url"]) ==> xs[i] in res.value
    ensures res.Ok? ==> IsSubsequence(res.value, xs)
    ensures res.Ok? ==> forall e :: multiset(res.value)[e] ==
                          (if e.JObj? && "doi" in r && "url" in r && KeepIdentifier(e, r["doi"], r["url"])
                           then multiset(xs)[e] else 0)
    decreases |xs|
  {
    if xs == [] then Ok([])
    else if !xs[0].JObj? then Err(AttributeError("get"))
    else if "doi" !in r then Err(KeyError("doi"))
    else if "url" !in r then Err(KeyError("url"))
    else
      var rest :- FilterIdentifiers(xs[1..], r);
      assert xs == [xs[0]] + xs[1..];
      Ok(if KeepIdentifier(xs[0], r["doi"], r["url"]) then [xs[0]] + rest else rest)
  }

  /** Filtering a list whose every element is kept returns it unchanged. */
  lemma {:induction false} FilterKeepsKept(xs: seq<Json>, r: Record)
    requires "doi" in r && "url" in r
    requires forall i :: 0 <= i < |xs| ==> xs[i].JObj? && KeepIdentifier(xs[i], r["doi"], r["url"])
    ensures FilterIdentifiers(xs, r) == Ok(xs)
    decreases |xs|
  {
    if xs != [] {
      FilterKeepsKept(xs[1..], r);
      assert [xs[0]] + xs[1..] == xs;
    }
  }

  /** `populate_identifiers`; iterating a string or dict walks characters or keys,
      on which `.get` fails unless there are none. */
  function PopulateIdentifiers(r: Record): (p: Result<Record>)
    ensures "identifiers" !in r ==> p == Err(KeyError("identifiers"))
    ensures p.Ok? ==> p.value.Keys == r.Keys && p.value["identifiers"].JArr?
    ensures p.Ok? ==> forall k :: k in r && k != "identifiers" ==> p.value[k] == r[k]
    ensures p.Ok? && r["identifiers"].JArr? ==> IsSubsequence(p.value["identifiers"].items, r["identifiers"].items)
    ensures p.Ok? && r["identifiers"].JArr? ==> FilterIdentifiers(r["identifiers"].items, r) == Ok(p.value["identifiers"].items)
    ensures p.Ok? && !r["identifiers"].JArr? ==> p.value["identifiers"] == JArr([])
    ensures p.Ok? ==> forall e :: e in p.value["identifiers"].items ==>
                        "doi" in r && "url" in r && e.JObj? && KeepIdentifier(e, r["doi"], r["url"])
  {
    if "identifiers" !in r then Err(KeyError("identifiers"))
    else match r["identifiers"]
      case JArr(xs) =>
        var kept :- FilterIdentifiers(xs, r);
        Ok(r["identifiers" := JArr(kept)])
      case JStr(s) => if s == [] then Ok(r["identifiers" := JArr([])]) else Err(AttributeError("get"))
      case JObj(m) => if m == map[] then Ok(r["identifiers" := JArr([])]) else Err(AttributeError("get"))
      case _ => Err(TypeError)
  }

  lemma PopulateIdentifiersIdempotent(r: Record)
    requires PopulateIdentifiers(r).Ok?
    ensures PopulateIdentifiers(PopulateIdentifiers(r).value) == PopulateIdentifiers(r)
  {
    var p := PopulateIdentifiers(r).value;
    var ids := p["identifiers"].items;
    if ids != [] {
      assert ids[0] in ids;
      assert p["doi"] == r["doi"] && p["url"] == r["url"];
      assert forall i :: 0 <= i < |ids| ==> ids[i] in ids;
      FilterKeepsKept(ids, p);
      assert p["identifiers" := JArr(ids)] == p;
    } else {
      assert p["identifiers" := JArr([])] == p;
    }
  }

  // ---------------------------------------------------------------------------
  // populate_alternate_identifiers

  /** The dict the comprehension builds for a kept entry. */
  function AlternateOf(e: Json): Json
    requires e.JObj?
  {
    JObj(map["alternateIdentifierType" := Get(e.fields, "identifierType"),
             "alternateIdentifier" := Get(e.fields, "identifier")])
  }

  /** The comprehension over a list: the condition indexes `r["identifier"]`
      directly, so an entry without it raises `KeyError`. */
  function AlternateEntries(xs: seq<Json>, r: Record): Result<seq<Json>>
    decreases |xs|
  {
    if xs == [] then Ok([])
    else if !xs[0].JObj? then Err(TypeError)
    else if "identifier" !in xs[0].fields then Err(KeyError("identifier"))
    else if "doi" !in r then Err(KeyError("doi"))
    else if "url" !in r then Err(KeyError("url"))
    else
      var rest :- AlternateEntries(xs[1..], r);
      Ok(if !InPair(xs[0].fields["identifier"], r["doi"], r["url"]) then [AlternateOf(xs[0])] + rest else rest)
  }

  /** `populate_alternate_identifiers`. */
  function PopulateAlternateIdentifiers(r: Record): (p: Result<Record>)
    ensures "identifiers" !in r ==> p == Err(KeyError("identifiers"))
    ensures p.Ok? ==> p.value.Keys == r.Keys + {"alternateIdentifiers"}
    ensures p.Ok? ==> forall k :: k in r && k != "alternateIdentifiers" ==> p.value[k] == r[k]
  {
    if "identifiers" !in r then Err(KeyError("identifiers"))
    else
      var alts :- match r["identifiers"]
        case JArr(xs) => AlternateEntries(xs, r)
        case JStr(s) => if s == [] then Ok([]) else Err(TypeError)
        case JObj(m) => if m == map[] then Ok([]) else Err(TypeError)
        case _ => Err(TypeError);
      Ok(r["alternateIdentifiers" := JArr(alts)])
  }

  /** Over entries that all pass the identifier filter: the comprehension fails
      exactly when one lacks `identifier`, and otherwise maps them one to one. */
  lemma {:induction false} AlternateEntriesOfKept(xs: seq<Json>, r: Record)
    requires xs != [] ==> "doi" in r && "url" in r
    requires forall i :: 0 <= i < |xs| ==> xs[i].JObj? && KeepIdentifier(xs[i], r["doi"], r["url"])
    ensures AlternateEntries(xs, r).Ok? <==> forall i :: 0 <= i < |xs| ==> "identifier" in xs[i].fields
    ensures AlternateEntries(xs, r).Err? ==> AlternateEntries(xs, r).error == KeyError("identifier")
    ensures AlternateEntries(xs, r).Ok? ==>
      var alts := AlternateEntries(xs, r).value;
      |alts| == |xs| && forall i :: 0 <= i < |xs| ==> alts[i] == AlternateOf(xs[i])
    decreases |xs|
  {
    if xs != [] {
      AlternateEntriesOfKept(xs[1..], r);
      assert forall i :: 1 <= i < |xs| ==> xs[i] == xs[1..][i - 1];
    }
  }

  /** Run after `populate_identifiers`, as `json_serialize` does: the alternate
      identifiers are the kept identifiers, one for one and in order, unless one
      of them lacks `identifier`, which raises `KeyError`. */
  lemma AlternatesFollowIdentifiers(r: Record)
    requires PopulateIdentifiers(r).Ok?
    ensures var r1 := PopulateIdentifiers(r).value;
      var ids := r1["identifiers"].items;
      var q := PopulateAlternateIdentifiers(r1);
      && (q.Ok? <==> forall i :: 0 <= i < |ids| ==> "identifier" in ids[i].fields)
      && (q.Err? ==> q.error == KeyError("identifier"))
      && (q.Ok? ==> var alts := q.value["alternateIdentifiers"].items;
            |alts| == |ids| && forall i :: 0 <= i < |ids| ==> alts[i] == AlternateOf(ids[i]))
  {
    var r1 := PopulateIdentifiers(r).value;
    KeptIdentifiers(r);
    AlternateEntriesOfKept(r1["identifiers"].items, r1);
  }

  /** After `populate_identifiers`, every remaining entry is a dict that passes
      the filter against the record's own doi and url. */
  lemma KeptIdentifiers(r: Record)
    requires PopulateIdentifiers(r).Ok?
    ensures var r1 := PopulateIdentifiers(r).value;
      var ids := r1["identifiers"].items;
      && (ids != [] ==> "doi" in r1 && "url" in r1)
      && forall i :: 0 <= i < |ids| ==> ids[i].JObj? && KeepIdentifier(ids[i], r1["doi"], r1["url"])
  {
    var r1 := PopulateIdentifiers(r).value;
    var ids := r1["identifiers"].items;
    if ids != [] {
      assert ids[0] in ids;
      assert "doi" in r && "url" in r;
    }
    assert forall i :: 0 <= i < |ids| ==> ids[i] in ids;
  }

  // ---------------------------------------------------------------------------
  // convert_is_active

  /** The first byte of the UTF-8 encoding of `c`. */
  function Utf8FirstByte(c: char): (b: nat)
    ensures b < 256
    ensures b == 1 <==> c as int == 1
  {
    var n := c as int;
    if n < 0x80 then n
    else if n < 0x800 then 0xC0 + n / 0x40
    else if n < 0x10000 then 0xE0 + n / 0x1000
    else 0xF0 + n / 0x40000
  }

  /** `convert_is_active`: true exactly when the string starts with U+0001. */
  function ConvertIsActive(r: Record): (p: Result<Record>)
    ensures "isActive" !in r ==> p == Err(KeyError("isActive"))
    ensures "isActive" in r && r["isActive"] == JStr("") ==> p == Err(IndexError)
    ensures p.Ok? <==> "isActive" in r && r["isActive"].JStr? && r["isActive"].s != ""
    ensures p.Ok? ==> p.value == r["isActive" := JBool(r["isActive"].s[0] as int == 1)]
  {
    if "isActive" !in r then Err(KeyError("isActive"))
    else if !r["isActive"].JStr? then Err(TypeError)
    else if r["isActive"].s == "" then Err(IndexError)
    else Ok(r["isActive" := JBool(Utf8FirstByte(r["isActive"].s[0]) == 1)])
  }

  // ---------------------------------------------------------------------------
  // camelize (a key renaming supplied by the caller)

  /** A camel-casing function suitable for renaming dict keys: it never merges two keys. */
  ghost predicate IsKeyRenaming(camel: string -> string) {
    forall a, b :: camel(a) == camel(b) ==> a == b
  }

  /** Deep key renaming: keys of nested dicts, also inside lists, are renamed; other values are kept. */
  function CamelizeValue(v: Json, camel: string -> string): (c: Json)
    requires IsKeyRenaming(camel)
    ensures v.JArr? <==> c.JArr?
    ensures v.JArr? ==> |c.items| == |v.items|
    ensures v.JObj? <==> c.JObj?
    ensures v.JObj? ==> c.fields.Keys == set k | k in v.fields :: camel(k)
    ensures !v.JArr? && !v.JObj? ==> c == v
    decreases v
  {
    match v
    case JArr(xs) => JArr(seq(|xs|, i requires 0 <= i < |xs| => CamelizeValue(xs[i], camel)))
    case JObj(m) => JObj(map k | k in m :: camel(k) := CamelizeValue(m[k], camel))
    case _ => v
  }

  function Camelize(r: Record, camel: string -> string): (c: Record)
    requires IsKeyRenaming(camel)
    ensures c.Keys == set k | k in r :: camel(k)
  {
    map k | k in r :: camel(k) := CamelizeValue(r[k], camel)
  }

  // ---------------------------------------------------------------------------
  // json_serialize

  /** The nine keys taken out of the record into the `relationships` block. */
  const RelationshipKeys: seq<string> :=
    ["client_id", "provider_id", "media_ids", "reference_ids", "citation_ids",
     "part_ids", "part_of_ids", "version_ids", "version_of_ids"]

  /** Every key `json_serialize` pops, in the order it pops them. */
  const PoppedKeys: seq<string> :=
    ["client_id", "provider_id", "media_ids", "reference_ids", "citation_ids",
     "part_ids", "part_of_ids", "version_ids", "version_of_ids",
     "uid", "publisher_obj", "version_info", "aasm_state"]

  /** The keys the normalisation chain reads after camel-casing: the array
      fields, the dictionary fields, `publicationYear`, `doi`, `url` and
      `isActive`. */
  const ChainKeys: seq<string> :=
    ArrayFields + DictionaryFields + ["publicationYear", "doi", "url", "isActive"]

  /** The search-index field a key of the normalised record comes from: the
      snake_case name `humps.camelize` turns into it, or, for `doi`, the
      `uid` it is renamed from. */
  function SourceName(k: string): string {
    match k
    case "rightsList" => "rights_list"
    case "fundingReferences" => "funding_references"
    case "relatedIdentifiers" => "related_identifiers"
    case "relatedItems" => "related_items"
    case "geoLocations" => "geo_locations"
    case "publicationYear" => "publication_year"
    case "isActive" => "is_active"
    case "doi" => "uid"
    case _ => k
  }

  predicate HasPoppedKeys(hit: Record) {
    && "client_id" in hit && "provider_id" in hit && "media_ids" in hit && "reference_ids" in hit
    && "citation_ids" in hit && "part_ids" in hit && "part_of_ids" in hit && "version_ids" in hit
    && "version_of_ids" in hit && "uid" in hit && "publisher_obj" in hit && "version_info" in hit
    && "aasm_state" in hit
  }

  /** The record after the pops and renames, before camel-casing. */
  function Renamed(hit: Record): Record
    requires HasPoppedKeys(hit)
  {
    (hit - set k | k in PoppedKeys)["doi" := hit["uid"]]["publisher" := hit["publisher_obj"]]
      ["version" := hit["version_info"]]["state" := hit["aasm_state"]]
  }

  /** The `pop` calls and renames of `json_serialize`, in order: the first missing
      key raises `KeyError`. */
  function PopAndRename(hit: Record): (r: Result<Record>)
    ensures r.Ok? <==> HasPoppedKeys(hit)
    ensures r.Err? ==> r.error.KeyError? && r.error.key in PoppedKeys && r.error.key !in hit
    ensures r.Ok? ==> r.value == Renamed(hit)
  {
    if "client_id" !in hit then Err(KeyError("client_id"))
    else if "provider_id" !in hit then Err(KeyError("provider_id"))
    else if "media_ids" !in hit then Err(KeyError("media_ids"))
    else if "reference_ids" !in hit then Err(KeyError("reference_ids"))
    else if "citation_ids" !in hit then Err(KeyError("citation_ids"))
    else if "part_ids" !in hit then Err(KeyError("part_ids"))
    else if "part_of_ids" !in hit then Err(KeyError("part_of_ids"))
    else if "version_ids" !in hit then Err(KeyError("version_ids"))
    else if "version_of_ids" !in hit then Err(KeyError("version_of_ids"))
    else if "uid" !in hit then Err(KeyError("uid"))
    else if "publisher_obj" !in hit then Err(KeyError("publisher_obj"))
    else if "version_info" !in hit then Err(KeyError("version_info"))
    else if "aasm_state" !in hit then Err(KeyError("aasm_state"))
    else Ok(Renamed(hit))
  }

  /** `for x in v`, where the code expects a list. */
  function Iterate(v: Json): (r: Result<seq<Json>>)
    ensures v.JArr? ==> r == Ok(v.items)
  {
    match v
    case JArr(xs) => Ok(xs)
    case JStr(s) => Ok(seq(|s|, i requires 0 <= i < |s| => JStr([s[i]])))
    case JObj(m) => if m == map[] then Ok([]) else Err(UnorderedIteration)
    case _ => Err(TypeError)
  }

  /** `{"data": {"id": id, "type": kind}}`. */
  function SingleLink(id: Json, kind: string): Json {
    JObj(map["data" := JObj(map["id" := id, "type" := JStr(kind)])])
  }

  /** `{"data": [{"id": x, "type": "dois"} for x in ids]}`. */
  function DoiLinks(ids: seq<Json>): (j: Json)
    ensures j.JObj? && "data" in j.fields && j.fields["data"].JArr?
    ensures |j.fields["data"].items| == |ids|
    ensures forall i :: 0 <= i < |ids| ==>
      j.fields["data"].items[i] == JObj(map["id" := ids[i], "type" := JStr("dois")])
  {
    JObj(map["data" := JArr(seq(|ids|, i requires 0 <= i < |ids| => JObj(map["id" := ids[i], "type" := JStr("dois")])))])
  }

  /** `populate_alternate_identifiers` then `convert_is_active`. */
  function FinishIdentifiers(i: Record): (r: Result<Record>)
    ensures r.Ok? ==> r.value.Keys == i.Keys + {"alternateIdentifiers"}
  {
    var a :- PopulateAlternateIdentifiers(i);
    ConvertIsActive(a)
  }

  /** `populate_published`, `populate_identifiers` and the rest of the chain. */
  function FinishPublished(e: Record): (r: Result<Record>)
    ensures r.Ok? ==> r.value.Keys == e.Keys + {"published"} + {"alternateIdentifiers"}
  {
    var p :- PopulatePublished(e);
    var i :- PopulateIdentifiers(p);
    FinishIdentifiers(i)
  }

  /** The normalisation chain `json_serialize` applies to the camel-cased record,
      in the code's order. */
  function Normalise(c: Record): (r: Result<Record>)
    ensures r.Ok? ==> r.value.Keys == c.Keys + {"container", "types"} + {"published"} + {"alternateIdentifiers"}
  {
    var w := WrapArrayFields(c);
    assert w.Keys == c.Keys;
    var e := PopulateEmptyFields(w);
    assert e.Keys == c.Keys + {"container", "types"};
    FinishPublished(e)
  }

  /** The `relationships` block: the client and provider links, then one list
      of DOI links per related-id field, iterated in the code's order. */
  function Relationships(hit: Record): (r: Result<Json>)
    requires HasPoppedKeys(hit)
  {
    var media :- Iterate(hit["media_ids"]);
    var references :- Iterate(hit["reference_ids"]);
    var citations :- Iterate(hit["citation_ids"]);
    var parts :- Iterate(hit["part_ids"]);
    var partOf :- Iterate(hit["part_of_ids"]);
    var versions :- Iterate(hit["version_ids"]);
    var versionOf :- Iterate(hit["version_of_ids"]);
    Ok(JObj(map[
      "client" := SingleLink(hit["client_id"], "clients"),
      "provider" := SingleLink(hit["provider_id"], "providers"),
      "media" := DoiLinks(media),
      "references" := DoiLinks(references),
      "citations" := DoiLinks(citations),
      "parts" := DoiLinks(parts),
      "partOf" := DoiLinks(partOf),
      "versions" := DoiLinks(versions),
      "versionOf" := DoiLinks(versionOf)]))
  }

  /** The document `json_serialize` returns around a normalised record. */
  function Document(rec: Record, relationships: Json): (doc: Json)
    requires "doi" in rec
    ensures doc.JObj? && doc.fields.Keys == {"id", "type", "attributes", "relationships"}
    ensures doc.fields["type"] == JStr("dois") && doc.fields["attributes"] == JObj(rec)
    ensures doc.fields["id"] == rec["doi"] && doc.fields["relationships"] == relationships
  {
    JObj(map["id" := rec["doi"], "type" := JStr("dois"), "attributes" := JObj(rec),
             "relationships" := relationships])
  }

  /** `json_serialize`: the REST-style document for a findable record. */
  function JsonSerialize(hit: Record, camel: string -> string): (r: Result<Json>)
    requires IsKeyRenaming(camel)
    ensures !HasPoppedKeys(hit) ==> r == PopAndRename(hit).PropagateFailure()
    ensures r.Ok? ==>
      && HasPoppedKeys(hit)
      && Normalise(Camelize(Renamed(hit), camel)).Ok?
      && "doi" in Normalise(Camelize(Renamed(hit), camel)).value
      && Relationships(hit).Ok?
      && r.value == Document(Normalise(Camelize(Renamed(hit), camel)).value, Relationships(hit).value)
  {
    var renamed :- PopAndRename(hit);
    var rec :- Normalise(Camelize(renamed, camel));
    if "doi" !in rec then Err(KeyError("doi"))
    else
      var relationships :- Relationships(hit);
      Ok(Document(rec, relationships))
  }

  /** The envelope: `id` is the attributes' `doi` and `type` is "dois"; and, for a
      camel-casing that never produces one of them, none of the nine keys moved
      into `relationships` is left in `attributes`. */
  lemma JsonEnvelope(hit: Record, camel: string -> string)
    requires IsKeyRenaming(camel)
    requires JsonSerialize(hit, camel).Ok?
    ensures var doc := JsonSerialize(hit, camel).value;
      && doc.JObj? && doc.fields.Keys == {"id", "type", "attributes", "relationships"}
      && doc.fields["type"] == JStr("dois")
      && doc.fields["attributes"].JObj? && "doi" in doc.fields["attributes"].fields
      && doc.fields["id"] == doc.fields["attributes"].fields["doi"]
    ensures (forall k :: camel(k) !in RelationshipKeys) ==>
      forall k :: k in RelationshipKeys ==> k !in JsonSerialize(hit, camel).value.fields["attributes"].fields
  {
    if forall k :: camel(k) !in RelationshipKeys {
      RelationshipKeysNotAdded();
      forall k | k in RelationshipKeys
        ensures k !in JsonSerialize(hit, camel).value.fields["attributes"].fields
      {
        CamelizeNeverYields(Renamed(hit), camel, k);
        NormaliseAddsOnly(Camelize(Renamed(hit), camel), k);
      }
    }
  }

  /** A key the camel-casing never produces is not in the camel-cased record. */
  lemma CamelizeNeverYields(r: Record, camel: string -> string, k: string)
    requires IsKeyRenaming(camel)
    requires forall a :: camel(a) != k
    ensures k !in Camelize(r, camel)
  {
  }

  /** Normalisation adds no key but the four it populates. */
  lemma NormaliseAddsOnly(c: Record, k: string)
    requires k !in c
    requires k != "container" && k != "types" && k != "published" && k != "alternateIdentifiers"
    requires Normalise(c).Ok?
    ensures k !in Normalise(c).value
  {
    NotAdded(c.Keys, Normalise(c).value.Keys, k);
  }

  lemma RelationshipKeysNotAdded()
    ensures forall k :: k in RelationshipKeys ==>
      k != "container" && k != "types" && k != "published" && k != "alternateIdentifiers"
  {
  }

  lemma NotAdded(before: set<string>, after: set<string>, k: string)
    requires after == before + {"container", "types"} + {"published"} + {"alternateIdentifiers"}
    requires k !in before
    requires k != "container" && k != "types" && k != "published" && k != "alternateIdentifiers"
    ensures k !in after
  {
  }

  /** The related-id fields and the relationship each one feeds. */
  const DoiLinkFields: seq<(string, string)> :=
    [("media_ids", "media"), ("reference_ids", "references"), ("citation_ids", "citations"),
     ("part_ids", "parts"), ("part_of_ids", "partOf"), ("version_ids", "versions"),
     ("version_of_ids", "versionOf")]

  /** Each related-id list becomes a `data` list of the same length and order whose
      entries carry the ids with type "dois". */
  lemma RelationshipLists(hit: Record, field: string, name: string)
    requires HasPoppedKeys(hit) && Relationships(hit).Ok?
    requires (field, name) in DoiLinkFields
    requires hit[field].JArr?
    ensures var rels := Relationships(hit).value;
      && rels.JObj? && name in rels.fields && rels.fields[name] == DoiLinks(hit[field].items)
  {
  }
}
