# MuatTruk core, modelled in Dafny

MuatTruk is a small web app for truck loading. The user picks a truck class
(L300, Truk Engkel or Truk Double) and fills a cart from a fixed catalog of
sacks, boxes, bales and packs. The app then sends the truck and the cart
to a hosted generative model, which answers with a tier-by-tier loading
plan; the plan is drawn as a pseudo-3-D stack of tier groups on the truck
bed.

This project models the parts of that app that compute something locally
and proves properties of them:

- **Cart** (`cart.dfy`): the pure `setCart` updaters of `App.tsx`. Adding
  either raises an entry's quantity or appends a new entry. Removing either
  takes one unit off or drops the entry. There is also the total-weight
  reduce. The lemmas prove what each update does to the sequence. They
  prove that ids stay unique and quantities positive, that adding one unit
  and then removing it gives back the original cart, and how each update
  moves the total weight.
- **App** (`app.dfy`): the `App` component's state as a class `AppState`
  with the fields `selectedTruck`, `cart`, `loading`, `plan` and `error`.
  There is one method per handler. The derived values are the total
  weight, the overload warning and the disabled rule of the generate
  buttons. The request handler is split at its `await`: one method starts
  the request and one receives the model's answer.
- **ItemSelector** (`item_selector.dfy`): the search-and-category filter,
  the quantity lookup, the de-duplicated category buttons, the plus and
  minus controls and the weight badge.
- **TruckVisualizer** (`truck_visualizer.dfy`): the colour lookup of a tier
  group, the total depth, the `previousDepth` loop (a method with a loop
  invariant tied to a recursive prefix sum), each group's pixel sizes and
  start offset, and the floor length. The lemmas prove that the groups are
  contiguous, that the stack is centred, and that it lies on the floor.
- **GeminiService** (`gemini_service.dfy`): the cart description and total
  weight that go into the prompt, the prompt's data section, and how the
  model's answer becomes a plan or the one failure message.
- **Constants** (`constants.dfy`): the `TRUCKS` and `ITEMS` catalogs,
  transcribed, with lemmas about their contents.
- `types.dfy` transcribes the records of `types.ts`. `strings.dfy` and
  `seqs.dfy` hold the string and sequence facts the other modules use:
  ASCII lower case, substring search, decimal numerals, join and split, and
  order-keeping duplicate removal.

The model's reply is an input (`GeminiService.AiReply`): either the call
failed, or it returned a text together with what `JSON.parse` makes of
it. The prompt's fixed instruction text, which comes before the data
section, is the parameter `instructions`.

## Model

| member | source | states |
|---|---|---|
| App.AppState.constructor | App.tsx:11-15 | No truck, an empty cart, not loading, no plan and no error, and the state invariant holds. |
| App.AppState.TotalWeight | App.tsx:17-19 | The total weight is the sum over entries of quantity times unit weight, and 0 for an empty cart. |
| App.AppState.Overloaded | App.tsx:164 | The overload warning shows exactly when a truck is selected and the summed cart weight exceeds that truck's maximum. |
| App.AppState.GenerateDisabled | App.tsx:174 | The generate button is disabled exactly when the guard fails (no truck, or an empty cart) or a request is loading. An enabled button always passes the guard. |
| App.AppState.SelectTruck | App.tsx:21-24 | Selects the truck and clears the plan. Cart, loading and error are unchanged. |
| App.AppState.AddToCart | App.tsx:26-37 | The cart becomes the add updater applied to the old cart, and the plan is cleared. Ids stay unique. Positive quantities stay positive when at least one unit is added. Nothing else changes. |
| App.AppState.RemoveFromCart | App.tsx:39-48 | The cart becomes the remove updater applied to the old cart, and the plan is cleared. Ids stay unique and positive quantities stay positive. Nothing else changes. |
| App.AppState.Reset | App.tsx:50-55 | Empties the cart and clears plan and error. The selected truck and the loading flag are kept. |
| App.AppState.BeginGeneratePlan | App.tsx:57-65 | A request is issued exactly when a truck is selected and the cart is non-empty. Its text is the prompt for that truck and cart, and loading is then set with plan and error cleared. If no request is issued, nothing changes. |
| App.AppState.CompleteGeneratePlan | App.tsx:64-71 | Loading ends, and plan and error are never both set. A successful answer becomes the plan and leaves the error clear; any failure shows the service's failure message and leaves the plan clear. A reply that passes both failure tests but parses to `null` (or another falsy value) sets neither: something is shown exactly when the reply is not such a reply. Truck and cart are unchanged. |
| App.AppState.GeneratePlan | App.tsx:57-72 | The whole handler with its one answer. It does nothing when the guard fails. Otherwise it ends not loading, with at most one of plan and error set, each as the answer decides, and neither of them exactly when the reply parses to a falsy value. |
| App.AppState.CanGenerate | App.tsx:58 | The handler's guard passes exactly when a truck is selected and the cart is not empty. |
| App.FailureMessageShown | App.tsx:67-68 | The message shown for any failed request is the service's own message; the fallback text is never reached. |
| App.CaughtMessage | App.tsx:68 | A caught `Error` shows its own message; any other caught value shows the fallback text. |
| Cart.Find | App.tsx:28 | Gives the first entry with the id, or None exactly when no entry has it. |
| Cart.FindUnique | App.tsx:28 | In a cart with unique ids, the entry holding an id is the one found. |
| Cart.WeightFromIsSum | App.tsx:18 | The left-fold reduce started at `acc` is `acc` plus the sum of quantity times unit weight. |
| Cart.TotalWeight | App.tsx:17-19 | The reduce gives the sum of quantity times unit weight over the entries, and 0 for an empty cart. |
| Cart.WithoutUnique | App.tsx:45 | With unique ids, filtering out an id removes exactly its entry and keeps the others in order. |
| Cart.Increment | App.tsx:30-32 | Same length and the same items in the same order. Entries with the id gain the amount; all other entries are unchanged. |
| Cart.Decrement | App.tsx:43 | Same length and the same items in the same order. Entries with the id lose one unit; all other entries are unchanged. |
| Cart.Without | App.tsx:45 | No entry with the id is left, every other entry is kept, and nothing is added. A cart without the id comes back unchanged. |
| Cart.AddToCart | App.tsx:27-35 | The cart grows by one entry exactly when the item was absent. The existing entries keep their items and order, the item is in the cart afterwards, and entries of other items are neither added nor removed. |
| Cart.RemoveFromCart | App.tsx:40-46 | The cart never grows. Entries of other items are neither added nor removed, and removing an id that is not in the cart changes nothing. |
| Cart.AddExisting | App.tsx:28-32 | Adding an item already in the cart raises that entry's quantity by the amount added. Every other entry is unchanged. |
| Cart.AddNew | App.tsx:34 | Adding an item not in the cart appends one entry with the amount added. |
| Cart.RemoveDecrements | App.tsx:41-43 | Removing an entry with more than one unit lowers its quantity by exactly one. Every other entry is unchanged. |
| Cart.RemoveDrops | App.tsx:41-45 | Removing an entry with one unit drops it and keeps the rest in order. |
| Cart.UpdatesKeepUnique | App.tsx:26-46 | Both updaters keep the ids unique. |
| Cart.UpdatesKeepPositive | App.tsx:26-46 | Removing keeps every quantity positive. Adding does too when at least one unit is added. |
| Cart.AddThenRemove | App.tsx:26-46 | Adding one unit of an item and removing that id gives back the original cart, whether or not the item was in it. |
| Cart.AddWeight | App.tsx:17-35 | Adding raises the total weight by the amount times the unit weight. For an item already in the cart, that is the unit weight stored in its entry. |
| Cart.RemoveWeight | App.tsx:17-46 | Removing an id in the cart lowers the total weight by one unit's weight. Removing an absent id leaves the total unchanged. |
| Constants.TrucksFacts | constants.ts:3-25 | Three trucks, L300, ENGKEL and DOUBLE in that order, each with a target weight below its maximum. |
| Constants.ItemsFacts | constants.ts:27-165 | Sixteen items with pairwise distinct ids and positive weights. |
| Strings.ContainsIff | components/ItemSelector.tsx:18 | `includes` holds exactly when the needle occurs at some position of the text. |
| Strings.ToLowerIdempotent | components/ItemSelector.tsx:18 | Lower-casing twice is lower-casing once. |
| Strings.ParseNatToString | services/geminiService.ts:16 | A decimal numeral reads back as the number written. |
| Strings.SplitJoin | services/geminiService.ts:15-17 | Splitting lines joined by a separator they do not contain gives the lines back. |
| Strings.CountJoin | services/geminiService.ts:15-17 | Joining n lines puts exactly n - 1 separators in the text. |
| GeminiService.Lines | services/geminiService.ts:15-16 | One line per cart entry, in cart order. |
| GeminiService.ParseLineTail | services/geminiService.ts:16 | The text after the item name reads back as the entry's quantity and unit weight. |
| GeminiService.CartLine | services/geminiService.ts:16 | Each line starts with "- ", the item name and ": ", and its rest reads back as the entry's quantity and unit weight. |
| GeminiService.CartLineInjective | services/geminiService.ts:16 | Two lines for the same name are equal only when quantity and weight are equal. |
| GeminiService.CartDescription | services/geminiService.ts:15-17 | An empty cart gives the empty text; otherwise the text starts with the first entry's line. |
| GeminiService.CartDescriptionLines | services/geminiService.ts:15-17 | An empty cart gives the empty text. Otherwise n entries give n - 1 newlines, and splitting at the newlines gives the lines back, when no item name contains a newline. |
| GeminiService.Prompt | services/geminiService.ts:21-48 | The prompt starts with the fixed instruction text; the data section follows it. |
| GeminiService.PromptMentions | services/geminiService.ts:19-48 | The prompt contains the truck name, the target-weight note, the total line with the cart's summed weight, and the cart description. |
| GeminiService.GenerateLoadingPlan | services/geminiService.ts:88-95 | The service succeeds exactly when the call returned a non-empty text that parses. It gives a plan exactly when the text parses to one, and then the parsed value; a text that parses to a falsy value gives success with no plan. Every failure carries the one failure message. |
| GeminiService.NullReplyHasNoPlan | services/geminiService.ts:89-91 | The reply text "null" passes the empty-text test and parses without throwing, so the service succeeds with no plan. |
| ItemSelector.Filter | components/ItemSelector.tsx:16-22 | The filtered list keeps catalog order and holds exactly the catalog items whose lower-cased name contains the lower-cased search and whose category passes the filter. |
| ItemSelector.FilteredItems | components/ItemSelector.tsx:16-22 | The items shown keep catalog order and are exactly the catalog items that pass the search and the category filter. |
| ItemSelector.EmptySearchShowsAll | components/ItemSelector.tsx:13-22 | With the initial empty search and the filter at 'All', the whole catalog is shown in order. |
| ItemSelector.SearchIgnoresCase | components/ItemSelector.tsx:18 | Lower-casing the search term does not change what is shown. |
| ItemSelector.GetCartQuantity | components/ItemSelector.tsx:24-26 | 0 for an id not in the cart. With unique ids, the quantity of the entry holding the id. |
| ItemSelector.QuantityOfEntry | components/ItemSelector.tsx:24-26 | With unique ids, the quantity shown for an entry's id is that entry's quantity. |
| ItemSelector.MinusDisabled | components/ItemSelector.tsx:97 | Minus is disabled for every item not in the cart. |
| ItemSelector.MinusDisabledIffAbsent | components/ItemSelector.tsx:94-97 | In a cart of unique, positive entries, minus is disabled exactly for items not in the cart. |
| ItemSelector.PlusMinusStep | components/ItemSelector.tsx:94-105 | Plus adds one to the quantity shown. An enabled minus takes exactly one off it. |
| ItemSelector.WeightBadge | components/ItemSelector.tsx:82-86 | The badge shows only when the quantity is positive, and then shows quantity times unit weight. |
| ItemSelector.BadgeIsEntryWeight | components/ItemSelector.tsx:82-86 | For an item in the cart, the badge shows that entry's share of the total weight. |
| Seqs.DistinctProperties | components/ItemSelector.tsx:28 | Duplicate removal keeps exactly the input's elements, each once, in order of first occurrence (a `Set`'s iteration order). |
| ItemSelector.DistinctNames | components/ItemSelector.tsx:28 | Removing repeated category names is removing repeated categories, since no two categories share a name. |
| ItemSelector.Categories | components/ItemSelector.tsx:28 | The first button is 'All', and the others are exactly the category names the catalog uses. |
| ItemSelector.CategoriesProperties | components/ItemSelector.tsx:28 | The buttons are 'All' followed by each category of the catalog once, in the order the catalog first uses them. |
| ItemSelector.CatalogCategories | components/ItemSelector.tsx:28 | For the shipped catalog the buttons are All, Sack, Bale, Box and Pack. |
| TruckVisualizer.FirstMatch | components/TruckVisualizer.tsx:14-16 | Gives the first catalog item matching one of the three conditions, or None exactly when none matches. |
| TruckVisualizer.GetColorForGroup | components/TruckVisualizer.tsx:12-17 | The colour of a group is some catalog item's colour or the default '#cbd5e1'. |
| TruckVisualizer.ColorIsFirstMatch | components/TruckVisualizer.tsx:12-17 | The colour is that of the first matching catalog item. |
| TruckVisualizer.ColorNoMatch | components/TruckVisualizer.tsx:17 | With no matching item, the colour is '#cbd5e1'. |
| TruckVisualizer.ColorFromCatalog | components/TruckVisualizer.tsx:12-17 | Every colour given is a catalog colour or the default. |
| TruckVisualizer.ColorIgnoresCase | components/TruckVisualizer.tsx:13 | The colour does not depend on the case of the description. |
| TruckVisualizer.SackColor | components/TruckVisualizer.tsx:14-15 | A description mentioning "karung" gets the 50 kg sack's colour '#d4a373'. |
| TruckVisualizer.DepthFromIsSum | components/TruckVisualizer.tsx:21 | The reduce started at `acc` is `acc` plus the sum of all tier counts. |
| TruckVisualizer.TotalDepth | components/TruckVisualizer.tsx:21 | The total depth is the sum of the tier counts of all groups. |
| TruckVisualizer.PreviousDepth | components/TruckVisualizer.tsx:94-97 | The loop gives the sum of the tier counts before the index. That is 0 at index 0 and the total depth one past the last group. |
| TruckVisualizer.DepthBeforeMonotone | components/TruckVisualizer.tsx:94-97 | With no negative tier counts, the partial sums are non-negative and grow with the index. |
| TruckVisualizer.GroupLayout | components/TruckVisualizer.tsx:91-104 | A group's box is tierWidth x 14 wide, tierHeight x 14 high and tierCount x 25 deep, lifted by half its height. It starts at the centred offset and is drawn in the group's colour. |
| TruckVisualizer.PlaceGroup | components/TruckVisualizer.tsx:94-104 | The same sizes and start offset for a given colour, with the offset from the `previousDepth` loop. |
| TruckVisualizer.StartY | components/TruckVisualizer.tsx:104 | Each group starts where the one before it ends: its offset is the previous group's offset plus that group's tierCount x 25. |
| TruckVisualizer.StackCentred | components/TruckVisualizer.tsx:104 | The first group starts at -(totalDepth x 25)/2 and the last group ends at +(totalDepth x 25)/2. |
| TruckVisualizer.FloorLength | components/TruckVisualizer.tsx:66 | The floor is at least 300 px and at least totalDepth x 25 px long, and it is one of the two. |
| TruckVisualizer.StackOnFloor | components/TruckVisualizer.tsx:62-104 | With no negative tier counts, every group lies within the floor, which is centred on the same point. |

## Left out

- The call to the hosted model is not modelled. That covers the client, the API key, the model name, the response schema and the network (services/geminiService.ts:7, 13, 50-87). Its outcome is the input `AiReply`.
- `JSON.parse` is not modelled. What it makes of the text is part of `AiReply`: it throws, it gives a falsy value (`null`, `false`, `0`, `""`), or it gives a plan. The error log written in the `catch` block is left out too.
- GeminiService.GenerateLoadingPlan: JSON values that are truthy but not a plan (a number, a string, an array, an object of another shape) cannot be written as a reply. The source casts them to a plan without checking and hands them to the view. A falsy value other than `null` is modelled as no plan; the view would show nothing for it, except for `0`, which `plan && ...` renders as the text "0".
- The instructions before the prompt's data section are the parameter `instructions`. That covers the fixed role text, `USER_CONTEXT_RULES` (constants.ts:167-204) and the example. The data section is modelled as written.
- React's scheduling is not modelled: `useState` setters, `useMemo`, `useCallback` and `await`. Each handler updates the fields at once. The request handler is split at its `await` into two methods. While a request is in flight only the generate buttons are disabled. Selecting a truck, adding, removing and resetting are still accepted, in the source and in the model alike, so an answer that arrives later sets its plan for a cart or truck that may have changed since the request. The model does not capture the interleaving itself: it has one state, and each method is one step of it.
- Presentation is not modelled. That covers JSX, styling, the CSS 3-D transforms, tooltips, the grid `backgroundSize` percentages (components/TruckVisualizer.tsx:209), `toLocaleString`, and the visibility of the Reset button (App.tsx:89).
- components/PlanResult.tsx and components/TruckSelector.tsx are not part of this model. They only render and select. `types.ts` is transcribed as datatypes.
- Strings are sequences of characters. Lower case maps ASCII 'A'-'Z' only, whereas JavaScript's `toLowerCase` covers all of Unicode.
- Weights and quantities are unbounded naturals: no floating point, rounding or overflow. Tier numbers are reals.
- Cart.AddToCart: the amount added is a natural. The source's callers always pass 1; a negative or fractional amount is not modelled.
- Cart.Decrement: stops at 0, where JavaScript would give -1. The difference could only be seen on a second entry with the same id, and the cart never holds one, since unique ids are preserved.
- The consistency of a tier group's numbers (tierCount x quantityPerTier = totalItemsInGroup) is not enforced. The source does not enforce it either.
- TruckVisualizer.DepthBeforeMonotone and TruckVisualizer.StackOnFloor assume non-negative tier counts. The reply could contain negative ones, and the source does not reject them.
