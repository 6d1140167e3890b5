/** `calculate_from_file.py`: the structural check of a loaded JSON
    configuration and the translation of its operation records into engine
    operations. */
module FromFile {
  import opened Operations

  /** A value `json.load` can produce; numbers are integers here. An object
      keeps its members in file order, duplicates included. */
  datatype Json =
    | JNull
    | JBool(b: bool)
    | JNum(n: int)
    | JStr(s: string)
    | JArr(items: seq<Json>)
    | JObj(members: seq<(string, Json)>)

  /** `obj.get(key)`: `json.load` keeps the last of duplicated keys. */
  function Lookup(members: seq<(string, Json)>, key: string): Option<Json>
  {
    if members == [] then None
    else
      var n := |members| - 1;
      if members[n].0 == key then Some(members[n].1) else Lookup(members[..n], key)
  }

  /** A key is found exactly when some member carries it, and then the value
      is that of the last such member. */
  lemma {:induction false} LookupFound(members: seq<(string, Json)>, key: string)
    ensures Lookup(members, key).Some? <==> exists i :: 0 <= i < |members| && members[i].0 == key
    ensures Lookup(members, key).Some? ==>
      exists i :: 0 <= i < |members| && members[i] == (key, Lookup(members, key).value)
        && forall j :: i < j < |members| ==> members[j].0 != key
  {
    if members != [] {
      var n := |members| - 1;
      LookupFound(members[..n], key);
      if members[n].0 != key {
        if exists i :: 0 <= i < |members| && members[i].0 == key {
          var i :| 0 <= i < |members| && members[i].0 == key;
          assert members[..n][i] == members[i];
        }
        if Lookup(members, key).Some? {
          var i :| 0 <= i < n && members[..n][i] == (key, Lookup(members, key).value)
            && forall j :: i < j < n ==> members[..n][j].0 != key;
          assert members[i] == members[..n][i];
          forall j | i < j < |members| ensures members[j].0 != key {
            if j < n { assert members[j] == members[..n][j]; }
          }
        }
      }
    }
  }

  /** `obj.get(key, default)` */
  function GetOr(members: seq<(string, Json)>, key: string, default: Json): Json
  {
    match Lookup(members, key)
    case Some(v) => v
    case None => default
  }

  /** Python truthiness of a JSON value. */
  predicate Truthy(j: Json)
  {
    match j
    case JNull => false
    case JBool(b) => b
    case JNum(n) => n != 0
    case JStr(s) => s != ""
    case JArr(items) => items != []
    case JObj(members) => members != []
  }

  // validate_configuration

  datatype FileProblem =
    | MissingBagsConfig   // "缺少 'bags_config' 字段"
    | MissingOperations   // "缺少 'operations' 字段"
    | BagsNotObject       // "'bags_config' 必须是非空字典"
    | OperationsNotList   // "'operations' 必须是列表"

  /** The messages `validate_configuration` prints before returning False:
      the missing fields if any, and only otherwise the shape checks. */
  function FileProblems(config: seq<(string, Json)>): seq<FileProblem>
  {
    var missing :=
      (if Lookup(config, "bags_config").None? then [MissingBagsConfig] else []) +
      (if Lookup(config, "operations").None? then [MissingOperations] else []);
    if missing != [] then missing
    else
      var bags := Lookup(config, "bags_config").value;
      var ops := Lookup(config, "operations").value;
      (if !bags.JObj? || bags.members == [] then [BagsNotObject] else []) +
      (if !ops.JArr? then [OperationsNotList] else [])
  }

  method ValidateConfiguration(config: seq<(string, Json)>) returns (valid: bool, errors: seq<FileProblem>)
    ensures errors == FileProblems(config)
    ensures valid <==> errors == []
  {
    errors := [];
    var bags := Lookup(config, "bags_config");
    if bags.None? {
      errors := errors + [MissingBagsConfig];
    }
    var ops := Lookup(config, "operations");
    if ops.None? {
      errors := errors + [MissingOperations];
    }
    if errors != [] {
      return false, errors;
    }
    if !bags.value.JObj? || bags.value.members == [] {
      errors := errors + [BagsNotObject];
    }
    if !ops.value.JArr? {
      errors := errors + [OperationsNotList];
    }
    valid := errors == [];
  }

  /** The file is accepted exactly when both fields are present, `bags_config`
      is a non-empty object and `operations` is a list. */
  lemma AcceptedIff(config: seq<(string, Json)>)
    ensures FileProblems(config) == [] <==>
      && Lookup(config, "bags_config").Some? && Lookup(config, "operations").Some?
      && Lookup(config, "bags_config").value.JObj? && Lookup(config, "bags_config").value.members != []
      && Lookup(config, "operations").value.JArr?
  {
  }

  /** A missing field is reported, and the shape checks are then skipped. */
  lemma MissingFieldStops(config: seq<(string, Json)>)
    requires Lookup(config, "bags_config").None? || Lookup(config, "operations").None?
    ensures FileProblems(config) != []
    ensures BagsNotObject !in FileProblems(config) && OperationsNotList !in FileProblems(config)
    ensures (MissingBagsConfig in FileProblems(config)) == Lookup(config, "bags_config").None?
    ensures (MissingOperations in FileProblems(config)) == Lookup(config, "operations").None?
  {
  }

  // convert_operations

  /** `draw_count <= 0` for the values a comparison with 0 accepts (`bool`
      compares as 0 or 1); any other value raises `TypeError`, which the
      loop catches, so the record is dropped either way. */
  function PositiveCount(j: Json): Option<int>
  {
    match j
    case JNum(n) => if n > 0 then Some(n) else None
    case JBool(b) => if b then Some(1) else None
    case _ => None
  }

  /** An engine operation read from a record. `bag_id` is passed through
      unchecked, so it is kept as the JSON value the record held. */
  datatype FileOperation = FileOperation(bagId: Json, drawCount: int, operationType: string)

  /** The outcome of one record: an operation, or nothing when it is skipped. */
  function ConvertRecord(record: Json): (r: Option<FileOperation>)
    ensures r.Some? ==> r.value.drawCount > 0 && KnownKind(r.value.operationType)
  {
    match record
    case JObj(members) =>
      var opType := GetOr(members, "operation_type", JStr(""));
      var count := PositiveCount(GetOr(members, "draw_count", JNum(0)));
      var bagId := GetOr(members, "bag_id", JNum(1));
      if !Truthy(opType) || count.None? then None
      else if opType == JStr("discard_bag") then Some(FileOperation(bagId, count.value, DiscardKind))
      else if opType == JStr(DrawKind) || opType == JStr(ReturnKind) then Some(FileOperation(bagId, count.value, opType.s))
      else None
    case _ => None  // `.get` on a non-dict raises AttributeError, caught
  }

  /** The list `convert_operations` returns. */
  function ConvertAll(records: seq<Json>): (r: seq<FileOperation>)
    ensures |r| <= |records|
  {
    if records == [] then []
    else
      var n := |records| - 1;
      ConvertAll(records[..n]) + Converted(records[n])
  }

  /** The operation a record yields, as a list of at most one. */
  function Converted(record: Json): seq<FileOperation>
  {
    match ConvertRecord(record) case Some(o) => [o] case None => []
  }

  method ConvertOperations(records: seq<Json>) returns (operations: seq<FileOperation>)
    ensures operations == ConvertAll(records)
  {
    operations := [];
    for i := 0 to |records|
      invariant operations == ConvertAll(records[..i])
    {
      assert records[..i + 1][..i] == records[..i];
      var next := ConvertOne(records[i]);
      if next.Some? {
        operations := operations + [next.value];
      }
    }
    assert records[..|records|] == records;
  }

  /** The body of the loop, with its `continue`s and its `except`. */
  method ConvertOne(record: Json) returns (r: Option<FileOperation>)
    ensures r == ConvertRecord(record)
  {
    if !record.JObj? {
      return None;
    }
    var opType := GetOr(record.members, "operation_type", JStr(""));
    var drawCount := GetOr(record.members, "draw_count", JNum(0));
    var bagId := GetOr(record.members, "bag_id", JNum(1));
    if !Truthy(opType) {
      return None;
    }
    var count := PositiveCount(drawCount);
    if count.None? {
      return None;
    }
    if opType == JStr("discard_bag") {
      r := Some(FileOperation(bagId, count.value, DiscardKind));
    } else if opType == JStr(DrawKind) || opType == JStr(ReturnKind) {
      r := Some(FileOperation(bagId, count.value, opType.s));
    } else {
      r := None;
    }
  }

  // What the translation does to a record

  /** A `"discard_bag"` record becomes a discard with the same bag and count. */
  lemma DiscardBagBecomesDiscard(members: seq<(string, Json)>, count: int)
    requires Lookup(members, "operation_type") == Some(JStr("discard_bag"))
    requires Lookup(members, "draw_count") == Some(JNum(count)) && count > 0
    ensures ConvertRecord(JObj(members)) == Some(FileOperation(GetOr(members, "bag_id", JNum(1)), count, DiscardKind))
  {
  }

  /** `"draw"` and `"return"` records pass through with their type, bag and
      count. */
  lemma DrawAndReturnPassThrough(members: seq<(string, Json)>, kind: string, count: int)
    requires kind == DrawKind || kind == ReturnKind
    requires Lookup(members, "operation_type") == Some(JStr(kind))
    requires Lookup(members, "draw_count") == Some(JNum(count)) && count > 0
    ensures ConvertRecord(JObj(members)) == Some(FileOperation(GetOr(members, "bag_id", JNum(1)), count, kind))
  {
  }

  /** A record without a usable type, with `"discard_hand"` or an unknown type,
      or without a positive `draw_count` (a missing one counts 0) is dropped. */
  lemma DroppedRecords(members: seq<(string, Json)>)
    ensures Lookup(members, "operation_type").None? ==> ConvertRecord(JObj(members)).None?
    ensures Lookup(members, "draw_count").None? ==> ConvertRecord(JObj(members)).None?
    ensures Lookup(members, "operation_type") == Some(JStr("discard_hand")) ==> ConvertRecord(JObj(members)).None?
    ensures (match Lookup(members, "draw_count") case Some(JNum(c)) => c <= 0 case _ => false) ==>
      ConvertRecord(JObj(members)).None?
  {
  }

  /** A record is kept exactly when it is an object with a truthy type among
      "draw", "return" and "discard_bag" and a positive count. */
  lemma KeptIff(record: Json)
    ensures ConvertRecord(record).Some? <==>
      && record.JObj?
      && GetOr(record.members, "operation_type", JStr("")) in [JStr("discard_bag"), JStr(DrawKind), JStr(ReturnKind)]
      && PositiveCount(GetOr(record.members, "draw_count", JNum(0))).Some?
  {
  }

  /** Without a `bag_id` the operation is on bag 1. */
  lemma DefaultBag(members: seq<(string, Json)>)
    requires Lookup(members, "bag_id").None? && ConvertRecord(JObj(members)).Some?
    ensures ConvertRecord(JObj(members)).value.bagId == JNum(1)
  {
  }

  // What the translation does to the list

  /** Converting a concatenation converts each part: the kept records keep
      their relative order. */
  lemma {:induction false} ConvertAllAppend(a: seq<Json>, b: seq<Json>)
    ensures ConvertAll(a + b) == ConvertAll(a) + ConvertAll(b)
    decreases |b|
  {
    if b == [] {
      assert a + b == a;
    } else {
      var n := |b| - 1;
      ConvertAllAppend(a, b[..n]);
      ConvertAllLast(a, b);
      var x, y, z := ConvertAll(a), ConvertAll(b[..n]), Converted(b[n]);
      assert (x + y) + z == x + (y + z);
    }
  }

  lemma ConvertAllLast(a: seq<Json>, b: seq<Json>)
    requires b != []
    ensures ConvertAll(a + b) == ConvertAll(a + b[..|b| - 1]) + Converted(b[|b| - 1])
  {
    var ab := a + b;
    assert ab[..|ab| - 1] == a + b[..|b| - 1];
    assert ab[|ab| - 1] == b[|b| - 1];
  }

  /** Every operation comes from a record, and every kept record yields one. */
  lemma {:induction false} ConvertAllFrom(records: seq<Json>, o: FileOperation)
    ensures o in ConvertAll(records) <==> exists i :: 0 <= i < |records| && ConvertRecord(records[i]) == Some(o)
  {
    if records != [] {
      var n := |records| - 1;
      var init := records[..n];
      ConvertAllFrom(init, o);
      var x, y := ConvertAll(init), Converted(records[n]);
      assert ConvertAll(records) == x + y;
      assert o in Converted(records[n]) <==> ConvertRecord(records[n]) == Some(o);
      assert o in x + y <==> o in x || o in y;
      if exists i :: 0 <= i < |records| && ConvertRecord(records[i]) == Some(o) {
        var i :| 0 <= i < |records| && ConvertRecord(records[i]) == Some(o);
        if i < n {
          assert init[i] == records[i];
        }
      }
      if o in x {
        var i :| 0 <= i < n && ConvertRecord(init[i]) == Some(o);
        assert records[i] == init[i];
      }
    }
  }

  /** The list is as long as the input exactly when no record is dropped. */
  lemma {:induction false} ConvertAllNoneDropped(records: seq<Json>)
    ensures |ConvertAll(records)| == |records| <==> forall i :: 0 <= i < |records| ==> ConvertRecord(records[i]).Some?
  {
    if records != [] {
      var n := |records| - 1;
      var init := records[..n];
      ConvertAllNoneDropped(init);
      ConvertedLength(records[n]);
      assert |ConvertAll(records)| == |ConvertAll(init)| + |Converted(records[n])|;
      assert forall i :: 0 <= i < n ==> init[i] == records[i];
    }
  }

  lemma ConvertedLength(record: Json)
    ensures |Converted(record)| == if ConvertRecord(record).Some? then 1 else 0
  {
  }
}
