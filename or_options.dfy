/** Or-options resolution as tests/inputs/OrOptions.spec.ts pins it down: a response
    `{type: 'or', index, response}` is handed to exactly the child at `index`, whose callback then
    runs. The children are the two kinds the test builds, and their callbacks store a number in a
    variable shared with the test (`value`), as the test's `cb` does. */
module OrOptionsInput {
  import opened Optional

  /** A `SelectOption` whose callback stores `result`, or a `SelectAmount` with its bounds
      whose callback stores the amount chosen. */
  datatype Child = SelectOption(result: int) | SelectAmount(min: int, max: int)

  datatype Response = OptionResponse | AmountResponse(amount: int)

  /** `{type: 'or', index, response}`. */
  datatype OrResponse = OrResponse(index: nat, response: Response)

  datatype Error = InvalidIndex | NotValidSelectAmountResponse | NotValidSelectOptionResponse

  /** What one `process` call comes to: the number the chosen callback stores, or the error. */
  datatype Outcome = Stores(value: int) | Throws(error: Error)

  function Message(e: Error): string
  {
    match e
    case InvalidIndex => "Invalid index"
    case NotValidSelectAmountResponse => "Not a valid SelectAmountResponse"
    case NotValidSelectOptionResponse => "Not a valid SelectOptionResponse"
  }

  /** Whether a response is of the kind the child accepts. */
  predicate Accepts(child: Child, response: Response)
  {
    child.SelectOption? == response.OptionResponse?
  }

  function Resolve(options: seq<Child>, input: OrResponse): Outcome
  {
    if input.index >= |options| then Throws(InvalidIndex)
    else
      match options[input.index]
      case SelectOption(result) =>
        if input.response.OptionResponse? then Stores(result) else Throws(NotValidSelectOptionResponse)
      case SelectAmount(_, _) =>
        if input.response.AmountResponse? then Stores(input.response.amount) else Throws(NotValidSelectAmountResponse)
  }

  /** Resolution succeeds exactly for an index in range whose child accepts the response kind;
      an index out of range is "Invalid index" whatever the response. */
  lemma ResolveCases(options: seq<Child>, input: OrResponse)
    ensures Resolve(options, input).Stores? <==>
      input.index < |options| && Accepts(options[input.index], input.response)
    ensures Resolve(options, input) == Throws(InvalidIndex) <==> input.index >= |options|
    ensures input.index < |options| && options[input.index].SelectAmount? && !input.response.AmountResponse? ==>
      Resolve(options, input) == Throws(NotValidSelectAmountResponse)
    ensures input.index < |options| && input.response.AmountResponse? && options[input.index].SelectAmount? ==>
      Resolve(options, input) == Stores(input.response.amount)
  {
  }

  /** Only the chosen child matters: changing the others changes nothing. */
  lemma SiblingsIgnored(options: seq<Child>, others: seq<Child>, input: OrResponse)
    requires |others| == |options|
    requires input.index < |options| ==> others[input.index] == options[input.index]
    ensures Resolve(others, input) == Resolve(options, input)
  {
  }

  /** The variable the test's `cb` writes. */
  class Cell {
    var value: int

    constructor (value: int)
      ensures this.value == value
    {
      this.value := value;
    }
  }

  class OrOptions {
    const options: seq<Child>

    constructor (options: seq<Child>)
      ensures this.options == options
    {
      this.options := options;
    }

    /** `process`: run the chosen child's callback, which writes `cell`, or throw; the options
        themselves are never changed, so the same prompt can be answered again. */
    method Process(input: OrResponse, cell: Cell) returns (thrown: Option<Error>)
      modifies cell
      ensures Resolve(options, input).Stores? ==>
        thrown == None && cell.value == Resolve(options, input).value
      ensures Resolve(options, input).Throws? ==>
        thrown == Some(Resolve(options, input).error) && cell.value == old(cell.value)
    {
      thrown := None;
      if input.index >= |options| {
        return Some(InvalidIndex);
      }
      match options[input.index]
      case SelectOption(result) =>
        if !input.response.OptionResponse? {
          return Some(NotValidSelectOptionResponse);
        }
        cell.value := result;
      case SelectAmount(_, _) =>
        if !input.response.AmountResponse? {
          return Some(NotValidSelectAmountResponse);
        }
        cell.value := input.response.amount;
    }
  }

  /** The "Simple" case of the test: three children, three successful responses that store 2, 3
      and 8 in turn, then a wrong response kind and two indices out of range. */
  method Simple() returns (stored: seq<int>, errors: seq<string>, optionCount: nat)
    ensures optionCount == 3
    ensures stored == [2, 3, 8]
    ensures errors == ["Not a valid SelectAmountResponse", "Invalid index", "Invalid index"]
  {
    var cell := new Cell(-1);
    var orOptions := new OrOptions([SelectOption(2), SelectOption(3), SelectAmount(0, 10)]);
    optionCount := |orOptions.options|;
    var e0 := orOptions.Process(OrResponse(0, OptionResponse), cell);
    var v0 := cell.value;
    var e1 := orOptions.Process(OrResponse(1, OptionResponse), cell);
    var v1 := cell.value;
    var e2 := orOptions.Process(OrResponse(2, AmountResponse(8)), cell);
    var v2 := cell.value;
    stored := [v0, v1, v2];
    var e3 := orOptions.Process(OrResponse(2, OptionResponse), cell);
    var e4 := orOptions.Process(OrResponse(5, OptionResponse), cell);
    var e5 := orOptions.Process(OrResponse(3, OptionResponse), cell);
    errors := [Message(e3.value), Message(e4.value), Message(e5.value)];
  }
}
