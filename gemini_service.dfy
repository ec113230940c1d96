// The local parts of services/geminiService.ts: the cart description and
// total weight written into the prompt, the prompt's data section, and how
// the reply of the external model becomes a plan or the one error.
// The model itself is not modelled: its reply is an input.

module GeminiService {
  import opened Types
  import opened Strings
  import Cart

  /** The single message every failure of plan generation carries. */
  const FAILURE_MESSAGE: string := "Gagal menghitung susunan tier. Coba lagi."

  /** What a `catch` clause can receive: an `Error` with its message, or any other value. */
  datatype Exception = Error(message: string) | NonError

  /** What `JSON.parse` makes of the reply text: it throws, it gives a value
      the view treats as no plan at all (`null`, `false`, `0` or `""`), or it
      gives a plan. The parse result is cast, not checked. */
  datatype Parsed = Unparsable | Falsy | PlanValue(plan: LoadingPlanResponse)

  /** The external model's answer to one request: the call threw, or it
      returned a text together with what `JSON.parse` makes of that text. */
  datatype AiReply = CallFailed | Replied(text: string, parsed: Parsed)

  /** A reply that gets past both failure tests but carries no plan. */
  predicate NoPlanReply(reply: AiReply)
  {
    reply.Replied? && reply.text != "" && reply.parsed.Falsy?
  }

  // ---------------------------------------------------------------------
  // The cart description
  // ---------------------------------------------------------------------

  /** The part of a cart line after the item name. */
  function LineTail(quantity: nat, weightKg: nat): string
  {
    NatToString(quantity) + " unit (@ " + NatToString(weightKg) + " kg)"
  }

  function LinePrefix(name: string): string
  {
    "- " + name + ": "
  }

  /** `- ${name}: ${quantity} unit (@ ${weightKg} kg)`: the line starts with
      "- ", the item name and ": ", and the rest of it reads back as the
      entry's quantity and unit weight. */
  function CartLine(entry: CartItem): (line: string)
    ensures |line| >= |LinePrefix(entry.item.name)|
    ensures line[..|LinePrefix(entry.item.name)|] == LinePrefix(entry.item.name)
    ensures ParseTail(line[|LinePrefix(entry.item.name)|..]) == Some((entry.quantity, entry.item.weightKg))
  {
    var p := LinePrefix(entry.item.name);
    var t := LineTail(entry.quantity, entry.item.weightKg);
    assert (p + t)[..|p|] == p;
    assert (p + t)[|p|..] == t;
    ParseLineTail(entry.quantity, entry.item.weightKg);
    p + t
  }

  /** `items.map(...)`: one line per entry, in cart order. */
  function Lines(items: seq<CartItem>): (r: seq<string>)
    ensures |r| == |items|
    ensures forall i :: 0 <= i < |items| ==> r[i] == CartLine(items[i])
  {
    seq(|items|, i requires 0 <= i < |items| => CartLine(items[i]))
  }

  /** `items.map(...).join("\n")`: empty for an empty cart, and otherwise
      starting with the first entry's line. */
  function CartDescription(items: seq<CartItem>): (d: string)
    ensures items == [] ==> d == ""
    ensures items != [] ==> |d| >= |CartLine(items[0])| && d[..|CartLine(items[0])|] == CartLine(items[0])
  {
    var ls := Lines(items);
    if |ls| == 0 then ""
    else
      JoinStartsWith(ls, "\n");
      Join(ls, "\n")
  }

  /** Reads the quantity and the unit weight back from a line tail. */
  function ParseTail(s: string): Option<(nat, nat)>
  {
    var d1 := LeadingDigits(s);
    var mid := " unit (@ ";
    if |d1| == 0 || |s| < |d1| + |mid| || s[|d1|..|d1| + |mid|] != mid then None
    else
      var rest := s[|d1| + |mid|..];
      var d2 := LeadingDigits(rest);
      if |d2| == 0 || rest[|d2|..] != " kg)" then None
      else Some((ParseDigits(d1), ParseDigits(d2)))
  }

  /** The digits of the unit weight and the closing text after them. */
  lemma WeightPartOf(w: string)
    requires |w| >= 1 && AllDigits(w)
    ensures LeadingDigits(w + " kg)") == w
    ensures (w + " kg)")[|w|..] == " kg)"
  {
    LeadingDigitsOf(w, " kg)");
  }

  lemma ParseTailOf(q: string, w: string)
    requires |q| >= 1 && AllDigits(q) && |w| >= 1 && AllDigits(w)
    ensures ParseTail(q + " unit (@ " + w + " kg)") == Some((ParseDigits(q), ParseDigits(w)))
  {
    var mid := " unit (@ ";
    var s := q + mid + w + " kg)";
    assert s == q + (mid + w + " kg)");
    LeadingDigitsOf(q, mid + w + " kg)");
    assert s[|q|..|q| + |mid|] == mid;
    assert s[|q| + |mid|..] == w + " kg)";
    WeightPartOf(w);
  }

  lemma ParseLineTail(quantity: nat, weightKg: nat)
    ensures ParseTail(LineTail(quantity, weightKg)) == Some((quantity, weightKg))
  {
    ParseTailOf(NatToString(quantity), NatToString(weightKg));
    ParseNatToString(quantity);
    ParseNatToString(weightKg);
  }

  /** Two lines for the same name are equal only for the same quantity and weight. */
  lemma CartLineInjective(a: CartItem, b: CartItem)
    requires a.item.name == b.item.name
    requires CartLine(a) == CartLine(b)
    ensures a.quantity == b.quantity && a.item.weightKg == b.item.weightKg
  {
    assert LinePrefix(a.item.name) == LinePrefix(b.item.name);
  }

  lemma NoNewlineInNumeral(n: nat)
    ensures '\n' !in NatToString(n)
  {
  }

  lemma NoNewlineInLine(name: string, quantity: nat, weightKg: nat)
    requires '\n' !in name
    ensures '\n' !in LinePrefix(name) + LineTail(quantity, weightKg)
  {
    NoNewlineInNumeral(quantity);
    NoNewlineInNumeral(weightKg);
    var t := LineTail(quantity, weightKg);
    assert forall c :: c in t ==> c in NatToString(quantity) || c in " unit (@ "
                                  || c in NatToString(weightKg) || c in " kg)";
  }

  lemma CartLineNoNewline(entry: CartItem)
    requires '\n' !in entry.item.name
    ensures '\n' !in CartLine(entry)
  {
    NoNewlineInLine(entry.item.name, entry.quantity, entry.item.weightKg);
  }

  /** The description holds one line per entry, in cart order, separated by
      single newlines: n entries give n - 1 separators, and splitting at the
      newlines gives the lines back. An empty cart gives the empty text. */
  lemma CartDescriptionLines(items: seq<CartItem>)
    requires forall i :: 0 <= i < |items| ==> '\n' !in items[i].item.name
    ensures items == [] ==> CartDescription(items) == ""
    ensures items != [] ==> Split(CartDescription(items), '\n') == Lines(items)
    ensures items != [] ==> Count(CartDescription(items), '\n') == |items| - 1
  {
    if items != [] {
      var ls := Lines(items);
      forall k | 0 <= k < |ls| ensures '\n' !in ls[k] {
        CartLineNoNewline(items[k]);
      }
      assert "\n" == ['\n'];
      SplitJoin(ls, '\n');
      CountJoin(ls, '\n');
    }
  }

  // ---------------------------------------------------------------------
  // The prompt
  // ---------------------------------------------------------------------

  /** ` (Target Ideal: ${truck.targetWeightKg}kg).` */
  function TargetNote(truck: TruckDef): string
  {
    " (Target Ideal: " + NatToString(truck.targetWeightKg) + "kg)."
  }

  /** `Total Berat: ${totalWeight} kg.` */
  function TotalNote(items: seq<CartItem>): string
  {
    "Total Berat: " + NatToString(Cart.TotalWeight(items)) + " kg."
  }

  /** The prompt sent for `truck` and `items`; `instructions` stands for the
      fixed text before the data section (role, loading rules, example). */
  function Prompt(truck: TruckDef, items: seq<CartItem>, instructions: string): (p: string)
    ensures |p| >= |instructions| && p[..|instructions|] == instructions
  {
    instructions
    + "DATA INPUT:\n    Truk: " + truck.name + TargetNote(truck)
    + "\n    " + TotalNote(items)
    + "\n    Barang:\n    " + CartDescription(items)
    + "\n\n    Responlah HANYA dengan format JSON.\n  "
  }

  /** The prompt names the truck, its target weight, the cart's total weight
      (the same sum of quantity times weight as the cart total) and the cart
      description. */
  lemma PromptMentions(truck: TruckDef, items: seq<CartItem>, instructions: string)
    ensures Contains(Prompt(truck, items, instructions), truck.name)
    ensures Contains(Prompt(truck, items, instructions),
                     " (Target Ideal: " + NatToString(truck.targetWeightKg) + "kg).")
    ensures Contains(Prompt(truck, items, instructions),
                     "Total Berat: " + NatToString(Cart.WeightSum(items)) + " kg.")
    ensures Contains(Prompt(truck, items, instructions), CartDescription(items))
  {
    var s0 := instructions + "DATA INPUT:\n    Truk: ";
    var s1 := s0 + truck.name;
    var s2 := s1 + TargetNote(truck);
    var s3 := s2 + "\n    ";
    var s4 := s3 + TotalNote(items);
    var s5 := s4 + "\n    Barang:\n    ";
    var s6 := s5 + CartDescription(items);
    var tail := "\n\n    Responlah HANYA dengan format JSON.\n  ";
    assert Prompt(truck, items, instructions) == s6 + tail;
    ContainsSelf(truck.name);
    ContainsAppendRight(s0, truck.name, truck.name);
    ContainsSelf(TargetNote(truck));
    ContainsAppendRight(s1, TargetNote(truck), TargetNote(truck));
    ContainsSelf(TotalNote(items));
    ContainsAppendRight(s3, TotalNote(items), TotalNote(items));
    ContainsSelf(CartDescription(items));
    ContainsAppendRight(s5, CartDescription(items), CartDescription(items));
    // widen each occurrence to the whole prompt
    ContainsAppendLeft(s1, TargetNote(truck), truck.name);
    ContainsAppendLeft(s2, "\n    ", truck.name);
    ContainsAppendLeft(s2, "\n    ", TargetNote(truck));
    ContainsAppendLeft(s3, TotalNote(items), truck.name);
    ContainsAppendLeft(s3, TotalNote(items), TargetNote(truck));
    ContainsAppendLeft(s4, "\n    Barang:\n    ", truck.name);
    ContainsAppendLeft(s4, "\n    Barang:\n    ", TargetNote(truck));
    ContainsAppendLeft(s4, "\n    Barang:\n    ", TotalNote(items));
    ContainsAppendLeft(s5, CartDescription(items), truck.name);
    ContainsAppendLeft(s5, CartDescription(items), TargetNote(truck));
    ContainsAppendLeft(s5, CartDescription(items), TotalNote(items));
    ContainsAppendLeft(s6, tail, truck.name);
    ContainsAppendLeft(s6, tail, TargetNote(truck));
    ContainsAppendLeft(s6, tail, TotalNote(items));
    ContainsAppendLeft(s6, tail, CartDescription(items));
  }

  // ---------------------------------------------------------------------
  // The reply
  // ---------------------------------------------------------------------

  /** `generateLoadingPlan` once the model has answered: an empty text, a
      parse error and a failed call all end in the same exception. A text
      that parses to `null` (or another falsy value) is returned as it is:
      success, but no plan. */
  function GenerateLoadingPlan(reply: AiReply): (r: Result<Option<LoadingPlanResponse>, Exception>)
    ensures r.Err? ==> r.error == Error(FAILURE_MESSAGE)
    ensures r.Ok? <==> reply.Replied? && reply.text != "" && !reply.parsed.Unparsable?
    ensures r.Ok? ==> (r.value.Some? <==> reply.parsed.PlanValue?)
    ensures r.Ok? && r.value.Some? ==> r.value.value == reply.parsed.plan
    ensures r == Ok(None) <==> NoPlanReply(reply)
  {
    match reply
    case CallFailed => Err(Error(FAILURE_MESSAGE))
    case Replied(text, parsed) =>
      if text == "" then Err(Error(FAILURE_MESSAGE))
      else
        match parsed
        case Unparsable => Err(Error(FAILURE_MESSAGE))
        case Falsy => Ok(None)
        case PlanValue(plan) => Ok(Some(plan))
  }

  /** The reply text "null" passes the empty-text test and parses without
      throwing, so the service succeeds without a plan. */
  lemma NullReplyHasNoPlan()
    ensures GenerateLoadingPlan(Replied("null", Falsy)) == Ok(None)
  {
  }
}
