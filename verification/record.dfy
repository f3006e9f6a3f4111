/** `CloudCollector.new_record` of `cloudinventario/helpers.py`: turns a
    loose attribute map into the fixed inventory record. JSON encoding is a
    parameter `encode`, since the text format is not part of the model. */
module Record {
  import opened Wrappers
  import opened Values
  import Platform

  /** The 17 scalar columns lifted out of the attribute map. */
  const AttrKeySet: set<string> := {"created",
    "name", "cluster", "project", "location", "description", "id",
    "cpus", "memory", "disks", "storage", "primary_ip",
    "os", "os_family",
    "status", "is_on",
    "owner"}

  /** The columns stored as JSON text, "[]" when absent. */
  const JsonKeySet: set<string> := {"networks", "storages", "tags"}

  /** The part of a `CloudCollector` that `new_record` reads. */
  datatype Collector = Collector(name: string, defaults: map<string, Value>)

  /** The inventory record; `fields` holds the 17 scalar columns. */
  datatype InventoryRecord = InventoryRecord(
    rtype: string,
    source: string,
    fields: map<string, Value>,
    networks: string,
    storages: string,
    tags: string,
    attributes: Option<string>,
    details: string)

  /** `{**defaults, **attrs}`: the caller's attributes win. */
  function Merge(defaults: map<string, Value>, attrs: map<string, Value>): map<string, Value> {
    defaults + attrs
  }

  /** A key `new_record` moves out of the attribute map: a column key whose value is truthy. */
  predicate Moved(merged: map<string, Value>, k: string) {
    (k in AttrKeySet || k in JsonKeySet) && k in merged && Truthy(merged[k])
  }

  /** The attribute map after the column keys with truthy values were deleted. */
  function Residual(merged: map<string, Value>): map<string, Value> {
    map k | k in merged && !Moved(merged, k) :: merged[k]
  }

  /** A scalar column before the OS rewriting: the value if truthy, else None. */
  function Lift(merged: map<string, Value>, k: string): Value {
    if Truthy(Get(merged, k)) then merged[k] else VNone
  }

  /** A JSON column: the encoded value if truthy, else the literal "[]". */
  function JsonColumn(merged: map<string, Value>, k: string, encode: Value -> string): string {
    if Truthy(Get(merged, k)) then encode(merged[k]) else "[]"
  }

  /** The description as `get_os_family`/`get_os` receive it; Failure where a
      truthy non-string description reaches `re.match` (TypeError). */
  function OsDescription(os: string, desc: Value): Result<Option<string>> {
    if !Platform.IsLinux(os) then Success(None)
    else match desc
      case VStr(d) => Success(Some(d))
      case _ => if Truthy(desc) then Failure(TypeError) else Success(None)
  }

  /** Every scalar column, lifted. */
  function Lifted(merged: map<string, Value>): (m: map<string, Value>)
    ensures m.Keys == AttrKeySet
    ensures forall k :: k in AttrKeySet ==> m[k] == Lift(merged, k)
  {
    map k | k in AttrKeySet :: Lift(merged, k)
  }

  /** The record before the OS columns are rewritten. */
  function BaseRecord(c: Collector, rectype: string, merged: map<string, Value>, details: Value,
                      encode: Value -> string): (r: InventoryRecord)
    ensures r.rtype == rectype && r.source == c.name && r.details == encode(details)
    ensures r.fields == Lifted(merged)
    ensures r.networks == JsonColumn(merged, "networks", encode)
    ensures r.storages == JsonColumn(merged, "storages", encode)
    ensures r.tags == JsonColumn(merged, "tags", encode)
    ensures r.attributes.None? <==> Residual(merged) == map[]
    ensures r.attributes.Some? ==> r.attributes.value == encode(VMap(Residual(merged)))
  {
    var residual := Residual(merged);
    assert |residual| > 0 <==> residual != map[] by {
      if residual != map[] {
        var k :| k in residual;
      }
    }
    InventoryRecord(rectype, c.name, Lifted(merged),
      JsonColumn(merged, "networks", encode), JsonColumn(merged, "storages", encode),
      JsonColumn(merged, "tags", encode),
      if |residual| > 0 then Some(encode(VMap(residual))) else None,
      encode(details))
  }

  /** `new_record(rectype, attrs, details)` of collector `c`. */
  function NewRecord(c: Collector, rectype: string, attrs: map<string, Value>, details: Value,
                     encode: Value -> string): (r: Result<InventoryRecord>)
    ensures r.Success? ==> r.value.rtype == rectype && r.value.source == c.name
    ensures r.Success? ==> r.value.fields.Keys == AttrKeySet
    ensures r.Success? ==> r.value.details == encode(details)
    ensures r.Success? ==>
              r.value == BaseRecord(c, rectype, Merge(c.defaults, attrs), details, encode).(fields := r.value.fields)
    ensures r.Success? ==> forall k :: k in AttrKeySet && k != "os" && k != "os_family" ==>
              r.value.fields[k] == Lift(Merge(c.defaults, attrs), k)
  {
    var merged := Merge(c.defaults, attrs);
    WithOs(BaseRecord(c, rectype, merged, details, encode), merged)
  }

  /** Lines 102-106: `os` and `os_family` rewritten when `os` is truthy;
      nothing else of the record changes. */
  function WithOs(record: InventoryRecord, merged: map<string, Value>): (r: Result<InventoryRecord>)
    requires "os" in record.fields && "os_family" in record.fields
    ensures r.Success? ==> r.value == record.(fields := r.value.fields)
    ensures r.Success? ==> r.value.fields.Keys == record.fields.Keys
    ensures r.Success? ==> forall k :: k in record.fields && k != "os" && k != "os_family" ==>
              r.value.fields[k] == record.fields[k]
  {
    var osValue := Lift(merged, "os");
    if !Truthy(osValue) then Success(record)
    else if !osValue.VStr? then Failure(TypeError)
    else
      var os := osValue.s;
      match OsDescription(os, Lift(merged, "description"))
      case Failure(e) => Failure(e)
      case Success(desc) =>
        var family := if "os_family" !in Residual(merged) then VStr(Platform.GetOsFamily(os, desc))
                      else Lift(merged, "os_family");
        Success(record.(fields := record.fields["os_family" := family]["os" := VStr(Platform.GetOs(os, desc))]))
  }

  /** The scalar columns other than `os`/`os_family` hold the merged value
      when it is truthy and None otherwise; JSON columns hold the encoding
      or "[]"; `attributes` is None exactly when nothing is left over. */
  lemma NewRecordColumns(c: Collector, rectype: string, attrs: map<string, Value>, details: Value,
                         encode: Value -> string)
    requires NewRecord(c, rectype, attrs, details, encode).Success?
    ensures var merged := Merge(c.defaults, attrs);
            var rec := NewRecord(c, rectype, attrs, details, encode).value;
            && (forall k :: k in AttrKeySet && k != "os" && k != "os_family" ==>
                  rec.fields[k] == (if k in merged && Truthy(merged[k]) then merged[k] else VNone))
            && rec.networks == (if "networks" in merged && Truthy(merged["networks"]) then encode(merged["networks"]) else "[]")
            && rec.storages == (if "storages" in merged && Truthy(merged["storages"]) then encode(merged["storages"]) else "[]")
            && rec.tags == (if "tags" in merged && Truthy(merged["tags"]) then encode(merged["tags"]) else "[]")
            && (rec.attributes.None? <==> Residual(merged) == map[])
            && (rec.attributes.Some? ==> rec.attributes.value == encode(VMap(Residual(merged))))
  {
    var merged := Merge(c.defaults, attrs);
    var base := BaseRecord(c, rectype, merged, details, encode);
  }

  /** What is left over: every key of the merged map stays with its value
      unless it is a column key with a truthy value, which leaves. */
  lemma ResidualPartition(defaults: map<string, Value>, attrs: map<string, Value>)
    ensures var merged := Merge(defaults, attrs);
            && Residual(merged).Keys <= merged.Keys
            && (forall k :: k in merged ==>
                  (k in Residual(merged) <==> !((k in AttrKeySet || k in JsonKeySet) && Truthy(merged[k]))))
            && (forall k :: k in Residual(merged) ==> Residual(merged)[k] == merged[k])
  {
  }

  /** The caller's attributes override the collector defaults: a truthy
      caller value lands in its column, a falsy one hides the default and
      stays in the leftover map. */
  lemma CallerOverridesDefaults(c: Collector, rectype: string, attrs: map<string, Value>, details: Value,
                                encode: Value -> string, k: string)
    requires NewRecord(c, rectype, attrs, details, encode).Success?
    requires k in attrs && k in AttrKeySet && k != "os" && k != "os_family"
    ensures var rec := NewRecord(c, rectype, attrs, details, encode).value;
            && (Truthy(attrs[k]) ==> rec.fields[k] == attrs[k])
            && (!Truthy(attrs[k]) ==> rec.fields[k] == VNone && Residual(Merge(c.defaults, attrs))[k] == attrs[k])
  {
    NewRecordColumns(c, rectype, attrs, details, encode);
  }

  /** When `os` is truthy, `os_family` is derived from it unless an explicit
      falsy `os_family` stayed behind in the leftover map; an explicit truthy
      `os_family` is therefore overwritten. `os` goes through `get_os`, and
      both calls see the record's own description. */
  lemma NewRecordOs(c: Collector, rectype: string, attrs: map<string, Value>, details: Value,
                    encode: Value -> string)
    requires NewRecord(c, rectype, attrs, details, encode).Success?
    ensures var merged := Merge(c.defaults, attrs);
            var rec := NewRecord(c, rectype, attrs, details, encode).value;
            var os := Get(merged, "os");
            && (!Truthy(os) ==> rec.fields["os"] == VNone && rec.fields["os_family"] == Lift(merged, "os_family"))
            && (Truthy(os) ==> (
                  && os.VStr? && OsDescription(os.s, Lift(merged, "description")).Success?
                  && var desc := OsDescription(os.s, Lift(merged, "description")).value;
                     && rec.fields["os"] == VStr(Platform.GetOs(os.s, desc))
                     && rec.fields["os_family"] ==
                          (if "os_family" in merged && !Truthy(merged["os_family"]) then VNone
                           else VStr(Platform.GetOsFamily(os.s, desc)))))
  {
    var merged := Merge(c.defaults, attrs);
    var base := BaseRecord(c, rectype, merged, details, encode);
    assert NewRecord(c, rectype, attrs, details, encode) == WithOs(base, merged);
    WithOsFields(base, merged);
  }

  /** The OS columns after the rewriting, for a record whose OS columns
      were lifted from `merged`. */
  lemma WithOsFields(record: InventoryRecord, merged: map<string, Value>)
    requires "os" in record.fields && "os_family" in record.fields
    requires record.fields["os"] == Lift(merged, "os") && record.fields["os_family"] == Lift(merged, "os_family")
    requires WithOs(record, merged).Success?
    ensures var rec := WithOs(record, merged).value;
            var os := Get(merged, "os");
            && (!Truthy(os) ==> rec.fields["os"] == VNone && rec.fields["os_family"] == Lift(merged, "os_family"))
            && (Truthy(os) ==> (
                  && os.VStr? && OsDescription(os.s, Lift(merged, "description")).Success?
                  && var desc := OsDescription(os.s, Lift(merged, "description")).value;
                     && rec.fields["os"] == VStr(Platform.GetOs(os.s, desc))
                     && rec.fields["os_family"] ==
                          (if "os_family" in merged && !Truthy(merged["os_family"]) then VNone
                           else VStr(Platform.GetOsFamily(os.s, desc)))))
  {
    var os := Get(merged, "os");
    if Truthy(os) {
      var desc := OsDescription(os.s, Lift(merged, "description")).value;
      var rec := WithOs(record, merged).value;
      assert "os_family" in Residual(merged) <==> "os_family" in merged && !Truthy(merged["os_family"]);
      assert rec.fields["os"] == VStr(Platform.GetOs(os.s, desc));
    }
  }

  /** `new_record` raises only where `re.match` meets a non-string: a truthy
      non-string `os`, or a Linux `os` with a truthy non-string description. */
  lemma NewRecordFailsOnlyOnTypeError(c: Collector, rectype: string, attrs: map<string, Value>,
                                      details: Value, encode: Value -> string)
    ensures var merged := Merge(c.defaults, attrs);
            var os := Get(merged, "os");
            var desc := Lift(merged, "description");
            NewRecord(c, rectype, attrs, details, encode).Failure? <==>
              Truthy(os) && (!os.VStr? || (Platform.IsLinux(os.s) && Truthy(desc) && !desc.VStr?))
  {
  }

  /** The record example: `{name: "x", tags: T}` with no defaults gives
      name "x", the encoded tags, no leftover attributes and no OS. */
  lemma NameAndTagsExample(name: string, tags: Value, details: Value, encode: Value -> string)
    requires Truthy(tags)
    ensures var attrs := map["name" := VStr("x"), "tags" := tags];
            var r := NewRecord(Collector(name, map[]), "vm", attrs, details, encode);
            && r.Success?
            && r.value.fields["name"] == VStr("x")
            && r.value.tags == encode(tags)
            && r.value.attributes == None
            && r.value.fields["os"] == VNone
  {
    var attrs := map["name" := VStr("x"), "tags" := tags];
    var merged := Merge(map[], attrs);
    assert merged == attrs;
    assert Residual(merged) == map[] by {
      assert Moved(merged, "name") && Moved(merged, "tags");
    }
    var base := BaseRecord(Collector(name, map[]), "vm", merged, details, encode);
    assert "os" !in merged;
    assert WithOs(base, merged) == Success(base);
  }
}
