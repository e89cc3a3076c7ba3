/** The values at the vector-store boundary and the checks that admit them. */
module VectorContracts {
  import opened Kernel
  import opened OrderedDict
  import Json
  import opened VectorMath

  datatype Error =
    | BadDimensions
    | BadNamespace
    | EmptyVector
    | NotANumber
    | WrongDimensions
    | ZeroMagnitude
    | BlankId
    | DuplicateId
    | EmptyBatch
    | BadLimit
    | BlankKey
    | NotAScalar
    | ScoreOutOfRange

  type Metadata = Dict<string, Json.Value>

  /** An element a caller hands over: a real number, or something that is not one. */
  type Component = Option<real>

  datatype Record = Record(id: string, vector: Vector, metadata: Metadata)

  datatype Match = Match(id: string, score: real, metadata: Metadata)

  /** The law `math.hypot` obeys over exact reals. */
  ghost predicate IsHypot(hypot: Vector -> real) {
    forall v :: IsNorm(v, hypot(v))
  }

  // ----- vectors -----

  predicate AllNumbers(components: seq<Component>) {
    forall i :: 0 <= i < |components| ==> components[i].Some?
  }

  function Values(components: seq<Component>): (v: Vector)
    requires AllNumbers(components)
    ensures |v| == |components| && forall i :: 0 <= i < |v| ==> components[i] == Some(v[i])
  {
    seq(|components|, i requires 0 <= i < |components| => components[i].value)
  }

  function Normalized(components: seq<Component>, dimensions: Option<nat>, hypot: Vector -> real): Fallible<Vector, Error> {
    if components == [] then Err(EmptyVector)
    else if !AllNumbers(components) then Err(NotANumber)
    else if dimensions.Some? && |components| != dimensions.value then Err(WrongDimensions)
    else if hypot(Values(components)) == 0.0 then Err(ZeroMagnitude)
    else Ok(Values(components))
  }

  /** What each refusal says of the components. */
  ghost predicate NormalizeRefuses(error: Error, components: seq<Component>, dimensions: Option<nat>) {
    match error
    case EmptyVector => components == []
    case NotANumber => None in components
    case WrongDimensions => None !in components && dimensions.Some? && |components| != dimensions.value
    case ZeroMagnitude => forall i :: 0 <= i < |components| ==> components[i] == Some(0.0)
    case _ => false
  }

  /** Exactly the non-zero numeric vectors of the right length are admitted, unchanged. */
  lemma NormalizedAdmits(components: seq<Component>, dimensions: Option<nat>, hypot: Vector -> real)
    requires IsHypot(hypot)
    ensures Normalized(components, dimensions, hypot).Ok?
       <==> AllNumbers(components) && Nonzero(Values(components))
            && (dimensions.Some? ==> |components| == dimensions.value)
    ensures match Normalized(components, dimensions, hypot)
      case Ok(v) => |v| == |components| && forall i :: 0 <= i < |v| ==> components[i] == Some(v[i])
      case Err(error) => NormalizeRefuses(error, components, dimensions)
  {
    if components != [] && AllNumbers(components) {
      var v := Values(components);
      assert IsNorm(v, hypot(v));
      NormPositive(v, hypot(v));
    }
  }

  method NormalizeVector(components: seq<Component>, dimensions: Option<nat>, hypot: Vector -> real)
    returns (r: Fallible<Vector, Error>)
    ensures r == Normalized(components, dimensions, hypot)
  {
    if components == [] {
      return Err(EmptyVector);
    }
    var normalized: Vector := [];
    for i := 0 to |components|
      invariant AllNumbers(components[..i])
      invariant normalized == Values(components[..i])
    {
      if components[i].None? {
        return Err(NotANumber);
      }
      normalized := normalized + [components[i].value];
    }
    assert components[..|components|] == components;
    if dimensions.Some? && |normalized| != dimensions.value {
      return Err(WrongDimensions);
    }
    if hypot(normalized) == 0.0 {
      return Err(ZeroMagnitude);
    }
    return Ok(normalized);
  }

  // ----- metadata -----

  predicate Scalar(value: Json.Value) {
    !value.Array? && !value.Object?
  }

  /** What is wrong with the first unacceptable item at or after position `i`. */
  function MetadataFault(items: Metadata, i: nat): Option<Error>
    requires i <= |items|
    decreases |items| - i
  {
    if i == |items| then None
    else if Blank(items[i].0) then Some(BlankKey)
    else if !Scalar(items[i].1) then Some(NotAScalar)
    else MetadataFault(items, i + 1)
  }

  /** The metadata is admitted exactly when every key is non-blank and every value is null, a truth value,
      a number or a text; otherwise the first offending item is reported, its key before its value. */
  lemma {:induction false} MetadataAdmitted(items: Metadata, i: nat)
    requires i <= |items|
    ensures MetadataFault(items, i).None?
       <==> forall j :: i <= j < |items| ==>
              !Blank(items[j].0) && (items[j].1.Null? || items[j].1.Bool? || items[j].1.Number? || items[j].1.Text?)
    ensures MetadataFault(items, i).Some? ==>
              exists j :: i <= j < |items|
                && MetadataFault(items[..j], i).None?
                && MetadataFault(items, i) == Some(if Blank(items[j].0) then BlankKey else NotAScalar)
                && (Blank(items[j].0) || items[j].1.Array? || items[j].1.Object?)
    decreases |items| - i
  {
    if i < |items| {
      MetadataAdmitted(items, i + 1);
      if Blank(items[i].0) || !Scalar(items[i].1) {
        assert MetadataFault(items[..i], i).None?;
      } else if MetadataFault(items, i).Some? {
        var j :| i + 1 <= j < |items|
                 && MetadataFault(items[..j], i + 1).None?
                 && MetadataFault(items, i + 1) == Some(if Blank(items[j].0) then BlankKey else NotAScalar)
                 && (Blank(items[j].0) || items[j].1.Array? || items[j].1.Object?);
        assert items[..j][i] == items[i];
      }
    }
  }

  function Snapshot(items: Metadata): Fallible<Metadata, Error> {
    var fault := MetadataFault(items, 0);
    if fault.Some? then Err(fault.value) else Ok(items)
  }

  method SnapshotMetadata(items: Metadata) returns (r: Fallible<Metadata, Error>)
    requires Distinct(Keys(items))
    ensures r == Snapshot(items)
  {
    var snapshot: Metadata := [];
    for i := 0 to |items|
      invariant snapshot == items[..i]
      invariant MetadataFault(items, 0) == MetadataFault(items, i)
    {
      var key, value := items[i].0, items[i].1;
      if Blank(key) {
        return Err(BlankKey);
      }
      if !Scalar(value) {
        return Err(NotAScalar);
      }
      FreshKey(items, i);
      PutKeys(snapshot, key, value);
      snapshot := Put(snapshot, key, value);
    }
    assert items[..|items|] == items;
    return Ok(snapshot);
  }

  lemma FreshKey(items: Metadata, i: nat)
    requires Distinct(Keys(items)) && i < |items|
    ensures items[i].0 !in Keys(items[..i])
  {
    forall j | 0 <= j < i
      ensures Keys(items[..i])[j] != items[i].0
    {
      assert Keys(items)[j] != Keys(items)[i];
    }
  }

  // ----- records and matches -----

  /** What every constructed record satisfies. */
  ghost predicate WellFormed(r: Record) {
    !Blank(r.id) && Nonzero(r.vector) && MetadataFault(r.metadata, 0).None?
  }

  function RecordOf(id: string, components: seq<Component>, metadata: Metadata, hypot: Vector -> real): Fallible<Record, Error> {
    if Blank(id) then Err(BlankId)
    else
      var vector := Normalized(components, None, hypot);
      var snapshot := Snapshot(metadata);
      if vector.Err? then Err(vector.error)
      else if snapshot.Err? then Err(snapshot.error)
      else Ok(Record(id, vector.value, snapshot.value))
  }

  method MakeRecord(id: string, components: seq<Component>, metadata: Metadata, hypot: Vector -> real)
    returns (r: Fallible<Record, Error>)
    requires IsHypot(hypot) && Distinct(Keys(metadata))
    ensures r == RecordOf(id, components, metadata, hypot)
    ensures r.Ok? <==> !Blank(id) && AllNumbers(components) && Nonzero(Values(components)) && MetadataFault(metadata, 0).None?
    ensures r.Ok? ==> && WellFormed(r.value) && r.value.id == id && r.value.metadata == metadata
                      && |r.value.vector| == |components|
                      && forall i :: 0 <= i < |components| ==> components[i] == Some(r.value.vector[i])
    ensures r.Err? ==> if Blank(id) then r.error == BlankId
                       else if !AllNumbers(components) || !Nonzero(Values(components)) then
                         NormalizeRefuses(r.error, components, None)
                       else Some(r.error) == MetadataFault(metadata, 0)
  {
    if Blank(id) {
      return Err(BlankId);
    }
    NormalizedAdmits(components, None, hypot);
    var vector := NormalizeVector(components, None, hypot);
    if vector.Err? {
      return Err(vector.error);
    }
    var snapshot := SnapshotMetadata(metadata);
    if snapshot.Err? {
      return Err(snapshot.error);
    }
    return Ok(Record(id, vector.value, snapshot.value));
  }

  function MatchOf(id: string, score: real, metadata: Metadata): Fallible<Match, Error> {
    if Blank(id) then Err(BlankId)
    else if !(-1.0 <= score <= 1.0) then Err(ScoreOutOfRange)
    else
      var snapshot := Snapshot(metadata);
      if snapshot.Err? then Err(snapshot.error) else Ok(Match(id, score, snapshot.value))
  }

  // ----- namespaces and identifiers -----

  predicate AlphaNumeric(c: char) {
    'A' <= c <= 'Z' || 'a' <= c <= 'z' || '0' <= c <= '9'
  }

  predicate ValidNamespace(namespace: string) {
    1 <= |namespace| <= 128
    && AlphaNumeric(namespace[0])
    && forall i :: 1 <= i < |namespace| ==> AlphaNumeric(namespace[i]) || namespace[i] in ['.', '_', '-']
  }

  /** The format of a namespace, one character at a time: it starts with a letter or a digit, goes on with
      letters, digits, dots, underscores and hyphens, and has at most 128 characters. */
  lemma NamespaceByCharacter(namespace: string, c: char)
    ensures !ValidNamespace("")
    ensures namespace == "" ==> (ValidNamespace([c]) <==> 'A' <= c <= 'Z' || 'a' <= c <= 'z' || '0' <= c <= '9')
    ensures namespace != "" ==>
              (ValidNamespace(namespace + [c])
               <==> && ValidNamespace(namespace) && |namespace| < 128
                    && ('A' <= c <= 'Z' || 'a' <= c <= 'z' || '0' <= c <= '9' || c == '.' || c == '_' || c == '-'))
  {
    var longer := namespace + [c];
    assert longer[|namespace|] == c;
    assert forall i :: 0 <= i < |namespace| ==> longer[i] == namespace[i];
  }

  /** What is wrong with the first unacceptable identifier at or after position `i`. */
  function IdsFault(ids: seq<string>, i: nat): Option<Error>
    requires i <= |ids|
    decreases |ids| - i
  {
    if i == |ids| then None
    else if Blank(ids[i]) then Some(BlankId)
    else if ids[i] in ids[..i] then Some(DuplicateId)
    else IdsFault(ids, i + 1)
  }

  lemma {:induction false} IdsAdmitted(ids: seq<string>, i: nat)
    requires i <= |ids|
    ensures IdsFault(ids, i).None?
       <==> forall j :: i <= j < |ids| ==> !Blank(ids[j]) && ids[j] !in ids[..j]
    ensures IdsFault(ids, i).Some? ==>
              exists j :: i <= j < |ids|
                && (forall k :: i <= k < j ==> !Blank(ids[k]) && ids[k] !in ids[..k])
                && (if Blank(ids[j]) then IdsFault(ids, i) == Some(BlankId)
                    else ids[j] in ids[..j] && IdsFault(ids, i) == Some(DuplicateId))
    decreases |ids| - i
  {
    if i < |ids| {
      IdsAdmitted(ids, i + 1);
      if !Blank(ids[i]) && ids[i] !in ids[..i] && IdsFault(ids, i).Some? {
        var j :| i + 1 <= j < |ids|
                 && (forall k :: i + 1 <= k < j ==> !Blank(ids[k]) && ids[k] !in ids[..k])
                 && (if Blank(ids[j]) then IdsFault(ids, i) == Some(BlankId)
                     else ids[j] in ids[..j] && IdsFault(ids, i) == Some(DuplicateId));
        assert forall k :: i <= k < j ==> !Blank(ids[k]) && ids[k] !in ids[..k];
      }
    }
  }

  method ValidateRecordIds(ids: seq<string>) returns (fault: Option<Error>)
    ensures fault == IdsFault(ids, 0)
  {
    var seen: set<string> := {};
    for i := 0 to |ids|
      invariant forall id :: id in seen <==> id in ids[..i]
      invariant IdsFault(ids, 0) == IdsFault(ids, i)
    {
      if Blank(ids[i]) {
        return Some(BlankId);
      }
      if ids[i] in seen {
        return Some(DuplicateId);
      }
      seen := seen + {ids[i]};
      assert ids[..i + 1] == ids[..i] + [ids[i]];
    }
    return None;
  }
}
