/** The OpenAI-compatible embedding adapter: retries, and reassembly of the response in request order. */
module Embeddings {
  import opened Kernel
  import opened VectorMath
  import opened VectorContracts

  datatype EmbeddingError =
    | InvalidJson
    | NotAnObjectResponse
    | BadModel
    | ModelMismatch
    | WrongCount
    | NotAnObjectItem
    | InvalidIndex
    | DuplicateIndex
    | NotASequence
    | NotNumeric
    | InconsistentDimensions
    | OmittedIndex
    | BatchSizeChanged
    | CredentialRejected
    | RequestFailed
    | TimedOut
    | Unreachable

  /** One element of the response's `data` list; the index is absent when it is not an integer. */
  datatype Item = NotAnObject | Object(index: Option<int>, embedding: Option<seq<Component>>)

  datatype Payload = NotJson | NotAMapping | Mapping(model: Option<string>, data: Option<seq<Item>>)

  datatype EmbeddingResult = EmbeddingResult(vectors: seq<Vector>, model: string, dimensions: nat)

  // ----- one vector -----

  function VectorFault(embedding: Option<seq<Component>>): Option<EmbeddingError> {
    if embedding.None? || embedding.value == [] then Some(NotASequence)
    else if !AllNumbers(embedding.value) then Some(NotNumeric)
    else None
  }

  predicate HasVector(item: Item) {
    item.Object? && VectorFault(item.embedding).None?
  }

  function VectorOf(item: Item): (v: Vector)
    requires HasVector(item)
    ensures v != []
  {
    Values(item.embedding.value)
  }

  // ----- which responses are complete -----

  predicate IndexIn(item: Item, n: nat) {
    item.Object? && item.index.Some? && 0 <= item.index.value < n
  }

  /** An item that can be placed: an object with an index among `n` and a numeric vector of `width`. */
  predicate Placeable(item: Item, n: nat, width: nat) {
    IndexIn(item, n) && HasVector(item) && |VectorOf(item)| == width
  }

  /** One placeable item per input, no index twice. */
  ghost predicate Complete(data: seq<Item>, n: nat, width: nat) {
    && |data| == n
    && (forall j :: 0 <= j < n ==> Placeable(data[j], n, width))
    && (forall i, j :: 0 <= i < j < n ==> data[i].index != data[j].index)
  }

  ghost predicate PlacedItem(item: Item, vectors: seq<Vector>) {
    IndexIn(item, |vectors|) && HasVector(item) && vectors[item.index.value] == VectorOf(item)
  }

  /** Every vector sits where its item's index says. */
  ghost predicate Placed(data: seq<Item>, vectors: seq<Vector>) {
    forall j :: 0 <= j < |data| ==> PlacedItem(data[j], vectors)
  }

  // ----- the pigeonhole -----

  lemma {:induction false} SizeBelow(s: set<int>, n: nat)
    requires forall x :: x in s ==> 0 <= x < n
    ensures |s| <= n
    ensures |s| == n ==> forall k :: 0 <= k < n ==> k in s
  {
    if n == 0 {
      assert forall x :: x !in s;
    } else {
      var rest := s - {n - 1};
      SizeBelow(rest, n - 1);
      if n - 1 in s {
        assert s == rest + {n - 1};
      } else {
        assert rest == s;
      }
    }
  }

  /** `n` distinct indices among `n` slots leave no slot empty. */
  lemma EverySlotIsNamed(data: seq<Item>, n: nat, width: nat, k: nat) returns (j: nat)
    requires Complete(data, n, width) && k < n
    ensures j < n && data[j].index == Some(k)
  {
    var indices := seq(n, i requires 0 <= i < n => data[i].index.value);
    forall a, b | 0 <= a < b < n
      ensures indices[a] != indices[b]
    {
      assert data[a].index != data[b].index;
    }
    DistinctSize(indices);
    SizeBelow(Elements(indices), n);
    assert k in Elements(indices);
    j :| 0 <= j < n && indices[j] == k;
  }

  /** A complete response determines its vectors. */
  lemma PlacementIsUnique(data: seq<Item>, width: nat, a: seq<Vector>, b: seq<Vector>)
    requires Complete(data, |data|, width) && |a| == |b| == |data|
    requires Placed(data, a) && Placed(data, b)
    ensures a == b
  {
    forall k | 0 <= k < |a|
      ensures a[k] == b[k]
    {
      var j := EverySlotIsNamed(data, |data|, width, k);
    }
  }

  // ----- the order of the items does not matter -----

  /** `p` rearranges `n` positions. */
  ghost predicate IsPermutation(p: seq<nat>, n: nat) {
    |p| == n && (forall i :: 0 <= i < n ==> p[i] < n) && forall i, j :: 0 <= i < j < n ==> p[i] != p[j]
  }

  function Permuted(data: seq<Item>, p: seq<nat>): (r: seq<Item>)
    requires |p| == |data| && forall i :: 0 <= i < |p| ==> p[i] < |data|
    ensures |r| == |data|
  {
    seq(|p|, i requires 0 <= i < |p| => data[p[i]])
  }

  lemma PermutedStaysComplete(data: seq<Item>, n: nat, width: nat, p: seq<nat>)
    requires IsPermutation(p, n) && Complete(data, n, width)
    ensures Complete(Permuted(data, p), n, width)
  {
    var r := Permuted(data, p);
    forall i, j | 0 <= i < j < n
      ensures r[i].index != r[j].index
    {
      assert p[i] != p[j];
      assert data[p[i]].index != data[p[j]].index;
    }
  }

  /** Any arrangement of a complete response yields the same vectors. */
  lemma ArrangementIsIrrelevant(data: seq<Item>, width: nat, p: seq<nat>, a: seq<Vector>, b: seq<Vector>)
    requires IsPermutation(p, |data|) && Complete(data, |data|, width)
    requires |a| == |b| == |data| && Placed(data, a) && Placed(Permuted(data, p), b)
    ensures a == b
  {
    var r := Permuted(data, p);
    PermutedStaysComplete(data, |data|, width, p);
    forall j | 0 <= j < |r|
      ensures PlacedItem(r[j], a)
    {
      assert r[j] == data[p[j]];
    }
    PlacementIsUnique(r, width, a, b);
  }

  // ----- the loop -----

  /** Whether an earlier item carries the index of item `i`. */
  predicate Repeats(data: seq<Item>, i: nat)
    requires i < |data| && data[i].Object?
  {
    exists j :: 0 <= j < i && data[j].Object? && data[j].index == data[i].index
  }

  /** What is wrong with item `i`, given that the items before it were placed with vectors of `width`. */
  function ItemFault(data: seq<Item>, n: nat, i: nat, width: Option<nat>): Option<EmbeddingError>
    requires i < |data|
  {
    var item := data[i];
    if item.NotAnObject? then Some(NotAnObjectItem)
    else if !IndexIn(item, n) then Some(InvalidIndex)
    else if Repeats(data, i) then Some(EmbeddingError.DuplicateIndex)
    else if VectorFault(item.embedding).Some? then VectorFault(item.embedding)
    else if width.Some? && |VectorOf(item)| != width.value then Some(InconsistentDimensions)
    else None
  }

  /** The first fault at or after item `i`. */
  function FirstFault(data: seq<Item>, n: nat, i: nat, width: Option<nat>): Option<EmbeddingError>
    requires i <= |data|
    decreases |data| - i
  {
    if i == |data| then None
    else
      var fault := ItemFault(data, n, i, width);
      if fault.Some? then fault
      else FirstFault(data, n, i + 1, Some(if width.Some? then width.value else |VectorOf(data[i])|))
  }

  /** The items before `i` are placeable and distinct. */
  ghost predicate GoodUpTo(data: seq<Item>, n: nat, i: nat, width: nat) {
    && i <= |data|
    && (forall j :: 0 <= j < i ==> Placeable(data[j], n, width))
    && (forall a, b :: 0 <= a < b < i ==> data[a].index != data[b].index)
  }

  /** The loop accepts exactly the complete responses. */
  lemma {:induction false} AcceptsExactlyComplete(data: seq<Item>, n: nat, i: nat, width: nat)
    requires 0 < |data| == n && i <= n && GoodUpTo(data, n, i, width) && (i == 0 && HasVector(data[0]) ==> |VectorOf(data[0])| == width)
    ensures FirstFault(data, n, i, if i == 0 then None else Some(width)).None? <==> Complete(data, n, width)
    decreases n - i
  {
    if i < n {
      if ItemFault(data, n, i, if i == 0 then None else Some(width)).None? {
        AcceptsExactlyComplete(data, n, i + 1, width);
      }
    }
  }

  /** No fault of the loop is the omitted-index fault. */
  lemma {:induction false} FaultsAreLocal(data: seq<Item>, n: nat, i: nat, width: Option<nat>)
    requires i <= |data|
    ensures FirstFault(data, n, i, width) !in [Some(OmittedIndex), Some(BatchSizeChanged)]
    decreases |data| - i
  {
    if i < |data| && ItemFault(data, n, i, width).None? {
      FaultsAreLocal(data, n, i + 1, Some(if width.Some? then width.value else |VectorOf(data[i])|));
    }
  }

  ghost predicate Filled(data: seq<Item>, i: nat, slots: seq<Option<Vector>>) {
    && i <= |data|
    && (forall j :: 0 <= j < i ==> IndexIn(data[j], |slots|) && HasVector(data[j]))
    && (forall j :: 0 <= j < i ==> slots[data[j].index.value] == Some(VectorOf(data[j])))
    && (forall k :: 0 <= k < |slots| && slots[k].Some? ==> exists j :: 0 <= j < i && data[j].index == Some(k))
  }

  lemma FillNext(data: seq<Item>, n: nat, i: nat, width: nat, slots: seq<Option<Vector>>)
    requires i < |data| && |slots| == n && Filled(data, i, slots) && GoodUpTo(data, n, i, width)
    requires Placeable(data[i], n, width) && slots[data[i].index.value].None?
    ensures Filled(data, i + 1, slots[data[i].index.value := Some(VectorOf(data[i]))])
    ensures GoodUpTo(data, n, i + 1, width)
  {
    var place := data[i].index.value;
    var after := slots[place := Some(VectorOf(data[i]))];
    forall k | 0 <= k < n && after[k].Some?
      ensures exists j :: 0 <= j < i + 1 && data[j].index == Some(k)
    {
      if k != place {
        var j :| 0 <= j < i && data[j].index == Some(k);
      } else {
        assert data[i].index == Some(k);
      }
    }
  }

  lemma FilledMeansNoHoles(data: seq<Item>, n: nat, width: nat, slots: seq<Option<Vector>>)
    requires |slots| == n == |data| && Filled(data, n, slots) && GoodUpTo(data, n, n, width)
    ensures forall k :: 0 <= k < n ==> slots[k].Some? && |slots[k].value| == width
  {
    forall k | 0 <= k < n
      ensures slots[k].Some? && |slots[k].value| == width
    {
      var j := EverySlotIsNamed(data, n, width, k);
    }
  }

  lemma SeenBefore(data: seq<Item>, n: nat, i: nat, slots: seq<Option<Vector>>)
    requires i < |data| && |slots| == n && Filled(data, i, slots) && IndexIn(data[i], n)
    ensures slots[data[i].index.value].Some? <==> Repeats(data, i)
  {
  }

  /** The checks of one pass of the loop, in order. */
  method CheckItem(
      data: seq<Item>, i: nat, ordered: array<Option<Vector>>, dimensions: Option<nat>, ghost slots: seq<Option<Vector>>)
    returns (r: Fallible<Vector, EmbeddingError>)
    requires i < |data| && Filled(data, i, slots)
    requires ordered.Length == |slots| && forall k :: 0 <= k < |slots| ==> ordered[k] == slots[k]
    ensures if r.Ok? then ItemFault(data, |slots|, i, dimensions).None? && r.value == VectorOf(data[i])
            else ItemFault(data, |slots|, i, dimensions) == Some(r.error)
    ensures r.Ok? ==> slots[data[i].index.value].None?
  {
    var item := data[i];
    if item.NotAnObject? {
      return Err(NotAnObjectItem);
    }
    if !IndexIn(item, ordered.Length) {
      return Err(InvalidIndex);
    }
    SeenBefore(data, ordered.Length, i, slots);
    if ordered[item.index.value].Some? {
      return Err(EmbeddingError.DuplicateIndex);
    }
    var fault := VectorFault(item.embedding);
    if fault.Some? {
      return Err(fault.value);
    }
    var vector := VectorOf(item);
    if dimensions.Some? && |vector| != dimensions.value {
      return Err(InconsistentDimensions);
    }
    return Ok(vector);
  }

  /** Where the loop stopped: everything before item `i` was placed, and item `i` has the fault. */
  ghost predicate StopsAt(data: seq<Item>, n: nat, i: nat, width: nat, error: EmbeddingError) {
    i < |data| && GoodUpTo(data, n, i, width)
    && ItemFault(data, n, i, if i == 0 then None else Some(width)) == Some(error)
  }

  lemma {:induction false} StopIsFirstFault(
      data: seq<Item>, n: nat, from: nat, i: nat, width: nat, error: EmbeddingError)
    requires from <= i && StopsAt(data, n, i, width, error)
    ensures FirstFault(data, n, from, if from == 0 then None else Some(width)) == Some(error)
    decreases i - from
  {
    if from < i {
      assert Placeable(data[from], n, width);
      StopIsFirstFault(data, n, from + 1, i, width, error);
    }
  }

  /** The slots, once the check for omitted indices has passed, which it always does. */
  method Collect(
      ordered: array<Option<Vector>>, ghost width: nat, ghost data: seq<Item>, ghost slots: seq<Option<Vector>>)
    returns (r: Fallible<seq<Vector>, EmbeddingError>)
    requires |slots| == ordered.Length == |data| && forall k :: 0 <= k < |slots| ==> ordered[k] == slots[k]
    requires Filled(data, |data|, slots) && GoodUpTo(data, |data|, |data|, width)
    ensures r.Ok? && |r.value| == |data| && Placed(data, r.value)
    ensures forall k :: 0 <= k < |data| ==> |r.value[k]| == width
  {
    FilledMeansNoHoles(data, |data|, width, slots);
    if exists k :: 0 <= k < ordered.Length && ordered[k].None? {
      return Err(OmittedIndex);
    }
    return Ok(seq(ordered.Length, k requires 0 <= k < ordered.Length && ordered[k].Some? reads ordered => ordered[k].value));
  }

  /** Fills the slots by index: the vectors placed by index when the response is complete, else the
      first fault. */
  method Reassemble(data: seq<Item>, n: nat) returns (r: Fallible<(seq<Vector>, nat), EmbeddingError>, ghost at: nat)
    requires 0 < n == |data|
    ensures r.Ok? ==> && Complete(data, n, r.value.1) && 0 < r.value.1
                      && |r.value.0| == n && Placed(data, r.value.0)
                      && forall k :: 0 <= k < n ==> |r.value.0[k]| == r.value.1
    ensures r.Err? ==> StopsAt(data, n, at, if HasVector(data[0]) then |VectorOf(data[0])| else 0, r.error)
  {
    var ordered := new Option<Vector>[n](k => None);
    var dimensions: Option<nat> := None;
    ghost var slots := ordered[..];
    ghost var width := if HasVector(data[0]) then |VectorOf(data[0])| else 0;
    for i := 0 to n
      invariant |slots| == n && forall k :: 0 <= k < n ==> ordered[k] == slots[k]
      invariant dimensions == if i == 0 then None else Some(width)
      invariant 0 < i ==> 0 < width
      invariant Filled(data, i, slots) && GoodUpTo(data, n, i, width)
    {
      var checked := CheckItem(data, i, ordered, dimensions, slots);
      if checked.Err? {
        return Err(checked.error), i;
      }
      var place, vector := data[i].index.value, checked.value;
      dimensions := Some(|vector|);
      FillNext(data, n, i, width, slots);
      ordered[place] := Some(vector);
      slots := slots[place := Some(vector)];
    }
    var vectors := Collect(ordered, width, data, slots);
    return Ok((vectors.value, dimensions.value)), n;
  }

  // ----- the whole response -----

  /** What the result constructor checks. */
  ghost predicate WellFormedResult(r: EmbeddingResult) {
    && !Blank(r.model)
    && 0 < r.dimensions
    && r.vectors != []
    && forall k :: 0 <= k < |r.vectors| ==> |r.vectors[k]| == r.dimensions
  }

  /** The item carries this vector: the same components in the same places. */
  ghost predicate Carries(item: Item, v: Vector) {
    && item.Object? && item.embedding.Some? && |v| == |item.embedding.value|
    && forall c :: 0 <= c < |v| ==> item.embedding.value[c] == Some(v[c])
  }

  /** What each refusal says of the response. */
  ghost predicate Refuses(error: EmbeddingError, payload: Payload, n: nat, configuredModel: string) {
    match error
    case InvalidJson => payload.NotJson?
    case NotAnObjectResponse => payload.NotAMapping?
    case BadModel => payload.Mapping? && (payload.model.None? || Blank(payload.model.value))
    case ModelMismatch => payload.Mapping? && payload.model.Some? && payload.model.value != configuredModel
    case WrongCount => payload.Mapping? && (payload.data.None? || |payload.data.value| != n)
    case _ => payload.Mapping? && payload.data.Some? && exists i :: FaultyItem(error, payload.data.value, n, i)
  }

  ghost predicate FaultyItem(error: EmbeddingError, data: seq<Item>, n: nat, i: nat) {
    i < |data|
    && match error
       case NotAnObjectItem => data[i].NotAnObject?
       case InvalidIndex => data[i].Object? && (data[i].index.None? || data[i].index.value < 0 || n <= data[i].index.value)
       case DuplicateIndex =>
         data[i].Object? && exists j :: 0 <= j < i && data[j].Object? && data[j].index == data[i].index
       case NotASequence => data[i].Object? && (data[i].embedding.None? || data[i].embedding.value == [])
       case NotNumeric => data[i].Object? && data[i].embedding.Some? && None in data[i].embedding.value
       case InconsistentDimensions =>
         && data[0].Object? && data[0].embedding.Some? && data[i].Object? && data[i].embedding.Some?
         && |data[0].embedding.value| != |data[i].embedding.value|
       case _ => false
  }

  lemma StopTells(data: seq<Item>, n: nat, i: nat, width: nat, error: EmbeddingError)
    requires StopsAt(data, n, i, width, error)
    ensures FaultyItem(error, data, n, i)
  {
    if error == InconsistentDimensions {
      assert Placeable(data[0], n, width);
    }
  }

  /** A result comes back exactly for the configured model's complete response to the batch, and then
      vector `k` is the one sent with index `k`; otherwise the error names a fault of the response. */
  method NormalizeResponse(payload: Payload, texts: seq<string>, configuredModel: string)
    returns (r: Fallible<EmbeddingResult, EmbeddingError>)
    requires texts != []
    ensures r.Ok? <==> && payload.Mapping? && payload.model == Some(configuredModel) && !Blank(configuredModel)
                       && payload.data.Some? && exists width :: Complete(payload.data.value, |texts|, width)
    ensures r.Ok? ==> && WellFormedResult(r.value) && r.value.model == configuredModel
                      && |r.value.vectors| == |texts| && Placed(payload.data.value, r.value.vectors)
    ensures r.Ok? ==> forall j, k :: 0 <= j < |texts| && 0 <= k < |texts|
                                     && payload.data.value[j].Object? && payload.data.value[j].index == Some(k) ==>
                        Carries(payload.data.value[j], r.value.vectors[k])
    ensures r.Err? ==> Refuses(r.error, payload, |texts|, configuredModel)
  {
    if payload.NotJson? {
      return Err(InvalidJson);
    }
    if payload.NotAMapping? {
      return Err(NotAnObjectResponse);
    }
    if payload.model.None? || Blank(payload.model.value) {
      return Err(BadModel);
    }
    if payload.model.value != configuredModel {
      return Err(ModelMismatch);
    }
    if payload.data.None? || |payload.data.value| != |texts| {
      return Err(WrongCount);
    }
    var data := payload.data.value;
    CompleteMeansNoFault(data, |texts|);
    FaultsAreLocal(data, |texts|, 0, None);
    ghost var width := if HasVector(data[0]) then |VectorOf(data[0])| else 0;
    var placed, at := Reassemble(data, |texts|);
    if placed.Err? {
      StopIsFirstFault(data, |texts|, 0, at, width, placed.error);
      StopTells(data, |texts|, at, width, placed.error);
      return Err(placed.error);
    }
    var result := EmbeddingResult(placed.value.0, configuredModel, placed.value.1);
    forall j, k | 0 <= j < |texts| && 0 <= k < |texts| && data[j].Object? && data[j].index == Some(k)
      ensures Carries(data[j], result.vectors[k])
    {
      assert PlacedItem(data[j], result.vectors);
    }
    if |result.vectors| != |texts| {
      return Err(BatchSizeChanged);
    }
    return Ok(result);
  }

  lemma {:induction false} CompleteMeansNoFault(data: seq<Item>, n: nat)
    requires 0 < |data| == n
    ensures FirstFault(data, n, 0, None).None? <==> exists width :: Complete(data, n, width)
  {
    var width := if HasVector(data[0]) then |VectorOf(data[0])| else 0;
    AcceptsExactlyComplete(data, n, 0, width);
    if w :| Complete(data, n, w) {
      assert Placeable(data[0], n, w);
    }
  }

  // ----- retries -----

  /** What one HTTP attempt does. */
  datatype Attempt<R> = Response(response: R) | Timeout | TransportFailure | OtherException

  datatype Posted<R> = Answered(response: R) | Failed(error: EmbeddingError) | Propagates | AssertionFailed

  /** Retries only timeouts and transport failures, at most `maxRetries` times, and reports the last
      attempt made: the first that is not retryable, or the one that spends the budget. */
  method Post<R>(maxRetries: nat, attempt: nat -> Attempt<R>) returns (r: Posted<R>, made: nat)
    ensures 1 <= made <= maxRetries + 1
    ensures match attempt(made - 1)
      case Response(response) => r == Answered(response)
      case Timeout => r == Failed(TimedOut)
      case TransportFailure => r == Failed(Unreachable)
      case OtherException => r == Propagates
    ensures forall k :: 0 <= k < made - 1 ==> attempt(k).Timeout? || attempt(k).TransportFailure?
    ensures made <= maxRetries ==> !attempt(made - 1).Timeout? && !attempt(made - 1).TransportFailure?
  {
    var attempts: nat := maxRetries + 1;
    for i := 0 to attempts
      invariant forall k :: 0 <= k < i ==> attempt(k).Timeout? || attempt(k).TransportFailure?
      invariant i < attempts
    {
      var outcome := attempt(i);
      if outcome.Response? {
        return Answered(outcome.response), i + 1;
      } else if outcome.OtherException? {
        return Propagates, i + 1;
      } else if i + 1 == attempts {
        return if outcome.Timeout? then Failed(TimedOut) else Failed(Unreachable), i + 1;
      }
    }
    return AssertionFailed, attempts;
  }
}
