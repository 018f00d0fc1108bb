/** The persisted weight record: building it (consolidate_data), checking it (verify_data),
    reading it from a file (load_data_from_file) and choosing between the file and the data
    in memory (determine_data_to_source). */
module Records {
  import opened Outcomes
  import opened Weights

  /** A JSON-like Python value: what json.loads yields and what the tool keeps in memory.
      Tuples are lists here, as they become once written to JSON. */
  datatype Value =
    | VNone
    | VBool(b: bool)
    | VNum(n: real)
    | VStr(s: string)
    | VList(items: seq<Value>)
    | VDict(fields: map<string, Value>)

  /** The record in typed form: vertex key to weight list, and the bone order. */
  datatype SkinData = SkinData(weight: map<string, seq<Entry>>, order: seq<string>)

  const NotDictMessage: string := "Data must be a dictionary"
  const MissingKeyMessage: string := "Data either does not contain key \"order\" or key \"weight\""
  const NotStringMessage: string := "Bone list must be strings"
  const ValidMessage: string := "Data is valid"
  const NoSourceMessage: string := "No valid data or file passed in"

  /** Python's name for the type of a value (a JSON number is read as a float). */
  function TypeName(v: Value): string
  {
    match v
    case VNone => "NoneType"
    case VBool(_) => "bool"
    case VNum(_) => "float"
    case VStr(_) => "str"
    case VList(_) => "list"
    case VDict(_) => "dict"
  }

  /** The TypeError that iterating a non-iterable value raises. */
  function NotIterable(v: Value): string
  {
    "TypeError: '" + TypeName(v) + "' object is not iterable"
  }

  function EncodeEntries(wl: seq<Entry>): Value
  {
    VList(seq(|wl|, i requires 0 <= i < |wl| => VList([VStr(wl[i].bone), VNum(wl[i].weight)])))
  }

  function EncodeOrder(order: seq<string>): Value
  {
    VList(seq(|order|, i requires 0 <= i < |order| => VStr(order[i])))
  }

  /** consolidate_data: the record `{'weight': ..., 'order': ...}`. */
  function ConsolidateData(weight: map<string, seq<Entry>>, order: seq<string>): (r: Value)
    ensures r.VDict? && r.fields.Keys == {"weight", "order"}
    ensures r.fields["weight"].VDict? && r.fields["weight"].fields.Keys == weight.Keys
    ensures r.fields["order"].VList? && |r.fields["order"].items| == |order|
  {
    VDict(map["weight" := VDict(map k | k in weight :: EncodeEntries(weight[k])),
              "order" := EncodeOrder(order)])
  }

  /** verify_data: a dictionary with both keys whose 'order' yields only strings when
      iterated. Iterating a string yields one-character strings and iterating a dictionary
      yields its keys, so both pass; iterating None, a boolean or a number raises. It answers
      False exactly for a non-dictionary, a missing key, or an 'order' list holding a
      non-string, each with its own message. */
  function VerifyData(data: Value): (r: Result<Verdict>)
    ensures r.Ok? && !r.value.ok <==>
      || !data.VDict?
      || "order" !in data.fields || "weight" !in data.fields
      || (data.fields["order"].VList?
          && exists i :: 0 <= i < |data.fields["order"].items| && !data.fields["order"].items[i].VStr?)
    ensures r.Raised? <==>
      data.VDict? && "order" in data.fields && "weight" in data.fields
      && (data.fields["order"].VNone? || data.fields["order"].VBool? || data.fields["order"].VNum?)
    ensures r.Raised? ==> r.exception == NotIterable(data.fields["order"])
    ensures r.Ok? ==> (r.value.message ==
      if r.value.ok then ValidMessage
      else if !data.VDict? then NotDictMessage
      else if "order" !in data.fields || "weight" !in data.fields then MissingKeyMessage
      else NotStringMessage)
  {
    match data
    case VDict(fields) =>
      if "order" !in fields || "weight" !in fields then Ok(Verdict(false, MissingKeyMessage))
      else (
        match fields["order"]
        case VList(items) =>
          if exists i :: 0 <= i < |items| && !items[i].VStr? then Ok(Verdict(false, NotStringMessage))
          else Ok(Verdict(true, ValidMessage))
        case VStr(_) => Ok(Verdict(true, ValidMessage))
        case VDict(_) => Ok(Verdict(true, ValidMessage))
        case other => Raised(NotIterable(other)))
    case _ => Ok(Verdict(false, NotDictMessage))
  }

  ghost predicate IsValid(data: Value)
  {
    VerifyData(data) == Ok(Verdict(true, ValidMessage))
  }

  /** consolidate_data with string names always passes verify_data. */
  lemma ConsolidatedIsValid(weight: map<string, seq<Entry>>, order: seq<string>)
    ensures IsValid(ConsolidateData(weight, order))
  {
    var items := EncodeOrder(order).items;
    assert forall i :: 0 <= i < |items| ==> items[i].VStr?;
  }

  function DecodeEntry(v: Value): Option<Entry>
  {
    if v.VList? && |v.items| == 2 && v.items[0].VStr? && v.items[1].VNum?
    then Some(Entry(v.items[0].s, v.items[1].n))
    else None
  }

  function DecodeEntries(v: Value): Option<seq<Entry>>
  {
    if v.VList? && forall i :: 0 <= i < |v.items| ==> DecodeEntry(v.items[i]).Some?
    then Some(seq(|v.items|, i requires 0 <= i < |v.items| => DecodeEntry(v.items[i]).value))
    else None
  }

  function DecodeOrder(v: Value): Option<seq<string>>
  {
    if v.VList? && forall i :: 0 <= i < |v.items| ==> v.items[i].VStr?
    then Some(seq(|v.items|, i requires 0 <= i < |v.items| => v.items[i].s))
    else None
  }

  /** Reads a record back into typed form: None unless 'weight' maps keys to lists of
      (name, number) pairs and 'order' is a list of names. */
  function Decode(v: Value): Option<SkinData>
  {
    if v.VDict? && "weight" in v.fields && "order" in v.fields
       && v.fields["weight"].VDict?
       && (forall k :: k in v.fields["weight"].fields ==> DecodeEntries(v.fields["weight"].fields[k]).Some?)
       && DecodeOrder(v.fields["order"]).Some?
    then
      var table := v.fields["weight"].fields;
      Some(SkinData(map k | k in table :: DecodeEntries(table[k]).value, DecodeOrder(v.fields["order"]).value))
    else None
  }

  /** Every record that reads back in typed form passes verify_data. */
  lemma DecodableIsValid(v: Value)
    requires Decode(v).Some?
    ensures IsValid(v)
  {
  }

  lemma EntriesRoundTrip(wl: seq<Entry>)
    ensures DecodeEntries(EncodeEntries(wl)) == Some(wl)
  {
    var v := EncodeEntries(wl);
    assert forall i :: 0 <= i < |v.items| ==> DecodeEntry(v.items[i]) == Some(wl[i]);
    var decoded := seq(|v.items|, i requires 0 <= i < |v.items| => DecodeEntry(v.items[i]).value);
    assert decoded == wl;
  }

  /** The record consolidate_data builds reads back as the same weight table and order. */
  lemma ConsolidateRoundTrip(weight: map<string, seq<Entry>>, order: seq<string>)
    ensures Decode(ConsolidateData(weight, order)) == Some(SkinData(weight, order))
  {
    var table := map k | k in weight :: EncodeEntries(weight[k]);
    forall k | k in table
      ensures DecodeEntries(table[k]) == Some(weight[k])
    {
      EntriesRoundTrip(weight[k]);
    }
    var o := EncodeOrder(order);
    assert forall i :: 0 <= i < |o.items| ==> o.items[i] == VStr(order[i]);
    var names := seq(|o.items|, i requires 0 <= i < |o.items| => o.items[i].s);
    assert names == order;
    assert (map k | k in table :: DecodeEntries(table[k]).value) == weight;
  }

  /** The outcome of choosing a data source: the data to apply, a refusal message, or the
      bare `None` the source returns when the path exists but the data is invalid. */
  datatype Sourcing = Accepted(data: Value) | Refused(message: string) | FellThrough

  /** load_json: `None` when the path does not exist, otherwise the parsed file. */
  function LoadJson(file: Option<Value>): (r: Value)
    ensures file.None? ==> r == VNone
    ensures file.Some? ==> r == file.value
  {
    match file
    case None => VNone
    case Some(v) => v
  }

  /** load_data_from_file: the file's content if it verifies, otherwise its refusal. */
  function LoadDataFromFile(file: Option<Value>): (r: Result<Sourcing>)
    ensures r.Ok? ==> !r.value.FellThrough?
    ensures r.Ok? && r.value.Accepted? <==> file.Some? && IsValid(file.value)
    ensures r.Ok? && r.value.Accepted? ==> r.value.data == file.value
  {
    match VerifyData(LoadJson(file))
    case Raised(e) => Raised(e)
    case Ok(verdict) =>
      if verdict.ok then Ok(Accepted(LoadJson(file))) else Ok(Refused(verdict.message))
  }

  /** determine_data_to_source, with the file modelled as present (Some) or absent (None). */
  function DetermineDataToSource(data: Value, file: Option<Value>, filePreference: bool): (r: Result<Sourcing>)
    ensures r.Ok? && r.value.Accepted? ==> IsValid(r.value.data)
    ensures file.None? && IsValid(data) ==> r == Ok(Accepted(data))
    ensures file.None? && VerifyData(data).Ok? && !IsValid(data) ==> r == Ok(Refused(NoSourceMessage))
    ensures file.Some? && IsValid(data) ==>
      r == if filePreference then LoadDataFromFile(file) else Ok(Accepted(data))
    ensures file.Some? && VerifyData(data).Ok? && !IsValid(data) ==>
      r == if LoadDataFromFile(file).Raised? then LoadDataFromFile(file) else Ok(FellThrough)
    ensures VerifyData(data).Raised? ==> r.Raised?
  {
    var filePathValidity := file.Some?;
    match VerifyData(data)
    case Raised(e) => Raised(e)
    case Ok(verdict) =>
      var dataValidity := verdict.ok;
      if !filePathValidity && !dataValidity then Ok(Refused(NoSourceMessage))
      else if !filePathValidity then Ok(Accepted(data))
      else if !dataValidity then
        (match LoadDataFromFile(file)
         case Raised(e) => Raised(e)
         case Ok(_) => Ok(FellThrough))
      else if filePreference then LoadDataFromFile(file)
      else Ok(Accepted(data))
  }
}
