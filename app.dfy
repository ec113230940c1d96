// The state of the App component: the selected truck, the cart, and the
// loading / plan / error fields around one plan request. The handlers
// overwrite these fields; the cart updaters themselves are the pure
// functions of module Cart.

module App {
  import opened Types
  import Cart
  import GeminiService

  /** Shown when the caught value is not an `Error`. */
  const FALLBACK_MESSAGE: string := "Terjadi kesalahan saat membuat rencana"

  /** `err instanceof Error ? err.message : FALLBACK_MESSAGE`. */
  function CaughtMessage(e: GeminiService.Exception): (m: string)
    ensures e.Error? ==> m == e.message
    ensures e.NonError? ==> m == FALLBACK_MESSAGE
  {
    match e
    case Error(message) => message
    case NonError => FALLBACK_MESSAGE
  }

  /** Whatever goes wrong with a request, the message shown is the service's one message. */
  lemma FailureMessageShown(reply: GeminiService.AiReply)
    ensures GeminiService.GenerateLoadingPlan(reply).Err? ==>
              CaughtMessage(GeminiService.GenerateLoadingPlan(reply).error) == GeminiService.FAILURE_MESSAGE
  {
  }

  class AppState {
    var selectedTruck: Option<TruckDef>
    var cart: seq<CartItem>
    var loading: bool
    var plan: Option<LoadingPlanResponse>
    var error: Option<string>

    /** Cart ids stay unique, and while a request is in flight neither a
        plan nor an error is shown. */
    ghost predicate Valid()
      reads this
    {
      Cart.UniqueIds(cart) && (loading ==> plan.None? && error.None?)
    }

    constructor ()
      ensures Valid()
      ensures selectedTruck.None? && cart == [] && !loading && plan.None? && error.None?
    {
      selectedTruck := None;
      cart := [];
      loading := false;
      plan := None;
      error := None;
    }

    /** `totalWeight`: the sum of quantity times unit weight over the cart. */
    function TotalWeight(): (w: nat)
      reads this
      ensures w == Cart.WeightSum(cart)
      ensures cart == [] ==> w == 0
    {
      Cart.TotalWeight(cart)
    }

    /** The overload warning: a truck is selected and the cart is heavier than its maximum. */
    predicate Overloaded()
      reads this
      ensures Overloaded() <==> selectedTruck.Some? && Cart.WeightSum(cart) > selectedTruck.value.maxWeightKg
    {
      selectedTruck.Some? && TotalWeight() > selectedTruck.value.maxWeightKg
    }

    /** The guard at the top of `handleGeneratePlan`. */
    predicate CanGenerate()
      reads this
      ensures CanGenerate() <==> selectedTruck.Some? && cart != []
    {
      selectedTruck.Some? && |cart| > 0
    }

    /** The `disabled` condition of both generate buttons; an enabled button
        always passes the guard. */
    predicate GenerateDisabled()
      reads this
      ensures !GenerateDisabled() ==> CanGenerate() && !loading
      ensures GenerateDisabled() <==> !CanGenerate() || loading
    {
      selectedTruck.None? || |cart| == 0 || loading
    }

    /** `handleSelectTruck`: selects the truck and clears the plan. */
    method SelectTruck(truck: TruckDef)
      requires Valid()
      modifies this
      ensures Valid()
      ensures selectedTruck == Some(truck) && plan.None?
      ensures cart == old(cart) && loading == old(loading) && error == old(error)
    {
      selectedTruck := Some(truck);
      plan := None;
    }

    /** `handleAddToCart`: applies the add updater and clears the plan. */
    method AddToCart(item: ItemDef, qtyToAdd: nat)
      requires Valid()
      modifies this
      ensures Valid()
      ensures cart == Cart.AddToCart(old(cart), item, qtyToAdd) && plan.None?
      ensures qtyToAdd >= 1 && Cart.AllPositive(old(cart)) ==> Cart.AllPositive(cart)
      ensures selectedTruck == old(selectedTruck) && loading == old(loading) && error == old(error)
    {
      Cart.UpdatesKeepUnique(cart, item, qtyToAdd, item.id);
      if Cart.AllPositive(cart) {
        Cart.UpdatesKeepPositive(cart, item, qtyToAdd, item.id);
      }
      cart := Cart.AddToCart(cart, item, qtyToAdd);
      plan := None;
    }

    /** `handleRemoveFromCart`: applies the remove updater and clears the plan. */
    method RemoveFromCart(itemId: string)
      requires Valid()
      modifies this
      ensures Valid()
      ensures cart == Cart.RemoveFromCart(old(cart), itemId) && plan.None?
      ensures Cart.AllPositive(old(cart)) ==> Cart.AllPositive(cart)
      ensures selectedTruck == old(selectedTruck) && loading == old(loading) && error == old(error)
    {
      Cart.RemoveKeepsUnique(cart, itemId);
      if Cart.AllPositive(cart) {
        Cart.RemoveKeepsPositive(cart, itemId);
      }
      cart := Cart.RemoveFromCart(cart, itemId);
      plan := None;
    }

    /** `handleReset`: empties the cart and clears plan and error; the truck stays selected. */
    method Reset()
      requires Valid()
      modifies this
      ensures Valid()
      ensures cart == [] && plan.None? && error.None?
      ensures selectedTruck == old(selectedTruck) && loading == old(loading)
    {
      cart := [];
      plan := None;
      error := None;
    }

    /** The first half of `handleGeneratePlan`: unless the guard fails, marks
        the request as loading, clears error and plan, and gives the prompt
        sent for the current truck and cart. */
    method BeginGeneratePlan(instructions: string) returns (request: Option<string>)
      requires Valid()
      modifies this
      ensures Valid()
      ensures request.Some? <==> old(CanGenerate())
      ensures request.Some? ==>
                request.value == GeminiService.Prompt(old(selectedTruck).value, old(cart), instructions)
                && loading && plan.None? && error.None?
      ensures request.None? ==>
                loading == old(loading) && plan == old(plan) && error == old(error)
      ensures selectedTruck == old(selectedTruck) && cart == old(cart)
    {
      if selectedTruck.None? || |cart| == 0 {
        return None;
      }
      request := Some(GeminiService.Prompt(selectedTruck.value, cart, instructions));
      loading := true;
      error := None;
      plan := None;
    }

    /** The second half: the reply of the model becomes the plan or the
        error, and loading ends. A reply without a plan (text "null") sets
        neither, so the request ends with nothing shown. */
    method CompleteGeneratePlan(reply: GeminiService.AiReply)
      requires Valid() && loading
      modifies this
      ensures Valid() && !loading
      ensures !(plan.Some? && error.Some?)
      ensures (plan.Some? || error.Some?) <==> !GeminiService.NoPlanReply(reply)
      ensures match GeminiService.GenerateLoadingPlan(reply)
              case Ok(p) => plan == p && error.None?
              case Err(_) => plan.None? && error == Some(GeminiService.FAILURE_MESSAGE)
      ensures selectedTruck == old(selectedTruck) && cart == old(cart)
    {
      var result := GeminiService.GenerateLoadingPlan(reply);
      match result {
        case Ok(p) => plan := p;
        case Err(e) => error := Some(CaughtMessage(e));
      }
      loading := false;
    }

    /** `handleGeneratePlan` with its one request answered by `reply`: does
        nothing unless a truck is selected and the cart is non-empty;
        otherwise ends with loading false and at most one of plan and error
        set, neither of them exactly when the reply carries no plan. */
    method GeneratePlan(instructions: string, reply: GeminiService.AiReply) returns (request: Option<string>)
      requires Valid()
      modifies this
      ensures Valid()
      ensures request.Some? <==> old(CanGenerate())
      ensures request.None? ==>
                loading == old(loading) && plan == old(plan) && error == old(error)
      ensures request.Some? ==>
                request.value == GeminiService.Prompt(old(selectedTruck).value, old(cart), instructions)
                && !loading && !(plan.Some? && error.Some?)
                && ((plan.Some? || error.Some?) <==> !GeminiService.NoPlanReply(reply))
                && (GeminiService.GenerateLoadingPlan(reply).Ok? ==> plan == GeminiService.GenerateLoadingPlan(reply).value)
                && (GeminiService.GenerateLoadingPlan(reply).Err? ==> error == Some(GeminiService.FAILURE_MESSAGE))
      ensures selectedTruck == old(selectedTruck) && cart == old(cart)
    {
      request := BeginGeneratePlan(instructions);
      if request.Some? {
        CompleteGeneratePlan(reply);
      }
    }
  }
}
