/** The application's plan state: building items from generated candidates,
    replacing an item by id, moving an item to another column, clearing and
    importing, and the coach conversation. The pure rules are functions over
    plans; the session that owns the persisted plan, the loading flag, the
    error text and the selected item is a class whose handlers call them. */
module App {
  import opened Types
  import opened LocalStorage

  /** The plan shown before anything is generated or after Clear. */
  const EmptyPlan := Plan("My Action Plan", "", [])

  // ---------------------------------------------------------------------------
  // Oracles: what the generator, the coach and a thrown value can be
  // ---------------------------------------------------------------------------

  /** A generated candidate: any of its texts may be missing (None) or empty. */
  datatype Candidate = Candidate(title: Option<string>, why: Option<string>, sourceCitation: Option<string>)

  /** A thrown value: an Error object carrying a message, or anything else. */
  datatype Thrown = ErrorObject(message: string) | NonError

  /** The result of an awaited call: its value, or the value it threw. */
  datatype Outcome<T> = Done(value: T) | Threw(failure: Thrown)

  /** `e instanceof Error ? e.message : "An unknown error occurred."`. */
  function ErrorMessage(e: Thrown): (r: string)
    ensures e.ErrorObject? ==> r == e.message
    ensures e.NonError? ==> r == "An unknown error occurred."
  {
    match e
    case ErrorObject(m) => m
    case NonError => "An unknown error occurred."
  }

  // ---------------------------------------------------------------------------
  // Building items from generation output
  // ---------------------------------------------------------------------------

  /** `text || fallback`: a missing or empty text gives way to the fallback. */
  function OrDefault(text: Option<string>, fallback: string): (r: string)
    ensures text.Some? && text.value != "" ==> r == text.value
    ensures text.None? || text.value == "" ==> r == fallback
  {
    if text.Some? && text.value != "" then text.value else fallback
  }

  function NewItem(c: Candidate, id: string): ActionItem {
    ActionItem(
      id,
      OrDefault(c.title, "Untitled"),
      OrDefault(c.why, "No rationale provided."),
      OrDefault(c.sourceCitation, "No citation."),
      Later, Mine, Medium, 0, [])
  }

  /** One new item per candidate, in the candidates' order; the i-th item
      takes the i-th id the supplier hands out. */
  function BuildItems(cands: seq<Candidate>, newId: nat -> string): (r: seq<ActionItem>)
    ensures |r| == |cands|
    ensures forall i :: 0 <= i < |r| ==>
      && r[i].id == newId(i)
      && r[i].status == Later && r[i].control == Mine && r[i].effort == Medium
      && r[i].cost == 0 && r[i].coachHistory == []
    ensures forall i :: 0 <= i < |r| ==>
      && r[i].title != "" && r[i].why != "" && r[i].sourceCitation != ""
    ensures forall i :: 0 <= i < |r| ==>
      && (cands[i].title.Some? && cands[i].title.value != "" ==> r[i].title == cands[i].title.value)
      && (cands[i].why.Some? && cands[i].why.value != "" ==> r[i].why == cands[i].why.value)
      && (cands[i].sourceCitation.Some? && cands[i].sourceCitation.value != "" ==>
            r[i].sourceCitation == cands[i].sourceCitation.value)
    ensures forall i :: 0 <= i < |r| ==>
      && (cands[i].title.None? || cands[i].title.value == "" ==> r[i].title == "Untitled")
      && (cands[i].why.None? || cands[i].why.value == "" ==> r[i].why == "No rationale provided.")
      && (cands[i].sourceCitation.None? || cands[i].sourceCitation.value == "" ==>
            r[i].sourceCitation == "No citation.")
  {
    seq(|cands|, i requires 0 <= i < |cands| => NewItem(cands[i], newId(i)))
  }

  predicate UniqueIds(items: seq<ActionItem>) {
    forall i, j :: 0 <= i < j < |items| ==> items[i].id != items[j].id
  }

  /** With a supplier that never repeats an id, generated items have distinct ids. */
  lemma BuildItemsUniqueIds(cands: seq<Candidate>, newId: nat -> string)
    requires forall i: nat, j: nat :: i < j < |cands| ==> newId(i) != newId(j)
    ensures UniqueIds(BuildItems(cands, newId))
  {
    var r := BuildItems(cands, newId);
    forall i, j | 0 <= i < j < |r| ensures r[i].id != r[j].id {
      assert r[i].id == newId(i) && r[j].id == newId(j);
    }
  }

  // ---------------------------------------------------------------------------
  // Replacing an item by id, and finding one
  // ---------------------------------------------------------------------------

  /** updateActionItem's updater: every item whose id matches becomes `u`. */
  function UpdateItem(p: Plan, u: ActionItem): (r: Plan)
    ensures r.eventName == p.eventName && r.sourceText == p.sourceText
    ensures |r.actionItems| == |p.actionItems|
    ensures forall i :: 0 <= i < |p.actionItems| ==> r.actionItems[i].id == p.actionItems[i].id
    ensures forall i :: 0 <= i < |p.actionItems| ==>
      r.actionItems[i] == if p.actionItems[i].id == u.id then u else p.actionItems[i]
  {
    var items := p.actionItems;
    p.(actionItems := seq(|items|, i requires 0 <= i < |items| => if items[i].id == u.id then u else items[i]))
  }

  predicate HasId(items: seq<ActionItem>, id: string) {
    exists i :: 0 <= i < |items| && items[i].id == id
  }

  /** An id that no item carries leaves the plan as it is. */
  lemma UpdateUnknownIdIsNoOp(p: Plan, u: ActionItem)
    requires !HasId(p.actionItems, u.id)
    ensures UpdateItem(p, u) == p
  {
    var r := UpdateItem(p, u);
    assert r.actionItems == p.actionItems;
  }

  /** Two updates of the same id: the second wins, as if the first had not happened. */
  lemma UpdateItemTwice(p: Plan, u: ActionItem, v: ActionItem)
    requires u.id == v.id
    ensures UpdateItem(UpdateItem(p, u), v) == UpdateItem(p, v)
  {
    assert UpdateItem(UpdateItem(p, u), v).actionItems == UpdateItem(p, v).actionItems;
  }

  /** Replacing an item preserves the uniqueness of ids. */
  lemma UpdateKeepsUniqueIds(p: Plan, u: ActionItem)
    requires UniqueIds(p.actionItems)
    ensures UniqueIds(UpdateItem(p, u).actionItems)
  {
  }

  /** `items.find(i => i.id === id)`: the position of the first item with the id, or -1. */
  function FirstWithId(items: seq<ActionItem>, id: string): (k: int)
    ensures -1 <= k < |items|
    ensures k >= 0 ==> items[k].id == id && forall j :: 0 <= j < k ==> items[j].id != id
    ensures k == -1 <==> !HasId(items, id)
  {
    if items == [] then -1
    else if items[0].id == id then 0
    else
      var k := FirstWithId(items[1..], id);
      if k == -1 then -1 else k + 1
  }

  function Find(items: seq<ActionItem>, id: string): (r: Option<ActionItem>)
    ensures r.None? <==> !HasId(items, id)
    ensures r.Some? ==> r.value.id == id && r.value in items
    ensures r.Some? ==> exists k :: 0 <= k < |items| && r.value == items[k] && forall j :: 0 <= j < k ==> items[j].id != id
  {
    var k := FirstWithId(items, id);
    if k < 0 then None else Some(items[k])
  }

  /** The item the coach panel shows: the first with the selected id; none when nothing is selected. */
  function ActiveItem(p: Plan, activeId: Option<string>): (r: Option<ActionItem>)
    ensures activeId.None? ==> r.None?
    ensures activeId.Some? ==> r == Find(p.actionItems, activeId.value)
  {
    if activeId.None? then None else Find(p.actionItems, activeId.value)
  }

  /** After an update, looking the id up again yields the new item, provided the id was present. */
  lemma {:induction false} FindAfterUpdate(p: Plan, u: ActionItem)
    requires HasId(p.actionItems, u.id)
    ensures Find(UpdateItem(p, u).actionItems, u.id) == Some(u)
  {
    var k := FirstWithId(p.actionItems, u.id);
    var r := UpdateItem(p, u).actionItems;
    var k' := FirstWithId(r, u.id);
    assert r[k] == u;
    assert k' <= k;
  }

  // ---------------------------------------------------------------------------
  // Dragging an item to another column
  // ---------------------------------------------------------------------------

  /** The plan after dropping item `id` on column `s`: nothing happens unless
      the item exists and sits in another column; then the found item, with
      its new status, replaces every item with that id. */
  function MoveItem(p: Plan, id: string, s: Status): (r: Plan)
    ensures !HasId(p.actionItems, id) ==> r == p
    ensures Find(p.actionItems, id).Some? && Find(p.actionItems, id).value.status == s ==> r == p
    ensures r.eventName == p.eventName && r.sourceText == p.sourceText
    ensures |r.actionItems| == |p.actionItems|
  {
    var found := Find(p.actionItems, id);
    if found.Some? && found.value.status != s then UpdateItem(p, found.value.(status := s)) else p
  }

  /** With unique ids, a move changes exactly the status of the dragged item
      and nothing else in the plan. */
  lemma MoveChangesOnlyStatus(p: Plan, id: string, s: Status)
    requires UniqueIds(p.actionItems)
    requires HasId(p.actionItems, id)
    ensures var k := FirstWithId(p.actionItems, id);
      MoveItem(p, id, s).actionItems == p.actionItems[k := p.actionItems[k].(status := s)]
  {
    var items := p.actionItems;
    var k := FirstWithId(items, id);
    var r := MoveItem(p, id, s).actionItems;
    forall i | 0 <= i < |items| ensures r[i] == items[k := items[k].(status := s)][i] {
      if i != k {
        assert items[i].id != id by {
          if i < k { } else { assert items[k].id != items[i].id; }
        }
      }
    }
  }

  // ---------------------------------------------------------------------------
  // The coach conversation
  // ---------------------------------------------------------------------------

  /** The text of the AI's message: the coach's reply, or the apology carrying the error. */
  function CoachReplyText(reply: Outcome<string>): (r: string)
    ensures reply.Done? ==> r == reply.value
    ensures reply.Threw? ==> r == "Sorry, I couldn't respond. Error: " + ErrorMessage(reply.failure)
  {
    match reply
    case Done(text) => text
    case Threw(e) => "Sorry, I couldn't respond. Error: " + ErrorMessage(e)
  }

  /** The history after one exchange: the old history, the user's message,
      and exactly one AI message. */
  function FinalHistory(h: seq<CoachMessage>, userMessage: string, reply: Outcome<string>): (r: seq<CoachMessage>)
    ensures |r| == |h| + 2 && r[..|h|] == h
    ensures r[|h|] == CoachMessage(User, userMessage)
    ensures r[|h| + 1] == CoachMessage(Ai, CoachReplyText(reply))
  {
    h + [CoachMessage(User, userMessage), CoachMessage(Ai, CoachReplyText(reply))]
  }

  /** A conversation made of complete exchanges: user, AI, user, AI, ... */
  predicate Alternates(h: seq<CoachMessage>) {
    && |h| % 2 == 0
    && forall i :: 0 <= i < |h| ==> h[i].sender == if i % 2 == 0 then User else Ai
  }

  /** An exchange keeps a well-formed conversation well-formed. */
  lemma ExchangeKeepsAlternation(h: seq<CoachMessage>, userMessage: string, reply: Outcome<string>)
    requires Alternates(h)
    ensures Alternates(FinalHistory(h, userMessage, reply))
  {
    var r := FinalHistory(h, userMessage, reply);
    forall i | 0 <= i < |r| ensures r[i].sender == if i % 2 == 0 then User else Ai {
      if i < |h| {
        assert r[i] == r[..|h|][i];
      }
    }
  }

  function CountFrom(h: seq<CoachMessage>, who: Sender): (n: nat)
    ensures n <= |h|
  {
    if h == [] then 0
    else CountFrom(h[..|h| - 1], who) + (if h[|h| - 1].sender == who then 1 else 0)
  }

  /** An exchange adds exactly one message from the user and exactly one from the AI. */
  lemma ExchangeAddsOneEach(h: seq<CoachMessage>, userMessage: string, reply: Outcome<string>)
    ensures CountFrom(FinalHistory(h, userMessage, reply), User) == CountFrom(h, User) + 1
    ensures CountFrom(FinalHistory(h, userMessage, reply), Ai) == CountFrom(h, Ai) + 1
  {
    var r := FinalHistory(h, userMessage, reply);
    assert r[..|r| - 1] == h + [CoachMessage(User, userMessage)];
    assert (h + [CoachMessage(User, userMessage)])[..|h|] == h;
  }

  /** One entry of the history handed to the coach: a role and the message text. */
  datatype RequestTurn = RequestTurn(role: string, text: string)

  function Role(who: Sender): (r: string)
    ensures r == "user" <==> who == User
    ensures r == "model" <==> who == Ai
  {
    assert "model"[0] != "user"[0];
    match who
    case User => "user"
    case Ai => "model"
  }

  /** The history the coach receives: the messages before the new one, each
      sender mapped to its role. */
  function RequestHistory(h: seq<CoachMessage>): (r: seq<RequestTurn>)
    ensures |r| == |h|
    ensures forall i :: 0 <= i < |h| ==> r[i].text == h[i].text && r[i].role == Role(h[i].sender)
  {
    seq(|h|, i requires 0 <= i < |h| => RequestTurn(Role(h[i].sender), h[i].text))
  }

  /** The request history loses nothing: it determines the conversation it came from. */
  lemma RequestHistoryIsFaithful(h1: seq<CoachMessage>, h2: seq<CoachMessage>)
    requires RequestHistory(h1) == RequestHistory(h2)
    ensures h1 == h2
  {
    assert |h1| == |h2|;
    forall i | 0 <= i < |h1| ensures h1[i] == h2[i] {
      assert RequestHistory(h1)[i] == RequestHistory(h2)[i];
    }
  }

  /** The plan after a complete exchange about item `item`. */
  function AfterExchange(p: Plan, item: ActionItem, userMessage: string, reply: Outcome<string>): Plan {
    UpdateItem(p, item.(coachHistory := FinalHistory(item.coachHistory, userMessage, reply)))
  }

  // ---------------------------------------------------------------------------
  // The session
  // ---------------------------------------------------------------------------

  class Session {
    /** The persisted plan (the 'impactlist-plan' entry) and its pending write. */
    const store: LocalStore<Plan>
    var isLoading: bool
    var error: Option<string>
    var activeItemId: Option<string>

    function CurrentPlan(): Plan
      reads this, store
    {
      store.value
    }

    constructor (stored: Slot<Plan>)
      ensures fresh(store)
      ensures store.State() == Init(stored, EmptyPlan)
      ensures !isLoading && error.None? && activeItemId.None?
    {
      store := new LocalStore(stored, EmptyPlan);
      isLoading := false;
      error := None;
      activeItemId := None;
    }

    /** handleGeneratePlan, with `generated` the generator's outcome and
        `newId` the id supplier: success replaces the whole plan; failure
        leaves it and records the error; loading ends either way. */
    method GeneratePlan(sourceText: string, eventName: string, generated: Outcome<seq<Candidate>>, newId: nat -> string)
      modifies this, store
      ensures !isLoading && activeItemId == old(activeItemId)
      ensures generated.Done? ==>
        && error.None?
        && store.State() == Step(old(store.State()), Set(Value(Plan(eventName, sourceText, BuildItems(generated.value, newId)))))
      ensures generated.Threw? ==>
        && error == Some(ErrorMessage(generated.failure))
        && store.State() == old(store.State())
    {
      isLoading := true;
      error := None;
      match generated {
        case Done(cands) =>
          var items := BuildItems(cands, newId);
          store.SetValue(Value(Plan(eventName, sourceText, items)));
        case Threw(e) =>
          error := Some(ErrorMessage(e));
      }
      isLoading := false;
    }

    /** updateActionItem: schedule the replacement of the item(s) with `u`'s id. */
    method UpdateActionItem(u: ActionItem)
      modifies store
      ensures store.value == UpdateItem(old(store.value), u)
      ensures store.pending == Some(store.value) && store.slot == old(store.slot)
    {
      store.SetValue(Updater(p => UpdateItem(p, u)));
    }

    /** handleItemDrag: a drop on the item's own column, or of an unknown id, changes nothing. */
    method ItemDrag(id: string, s: Status)
      modifies store
      ensures store.value == MoveItem(old(store.value), id, s)
      ensures MoveItem(old(store.value), id, s) == old(store.value) ==> store.State() == old(store.State())
      ensures MoveItem(old(store.value), id, s) != old(store.value) ==> store.pending == Some(store.value)
      ensures store.slot == old(store.slot)
    {
      var found := Find(store.value.actionItems, id);
      if found.Some? && found.value.status != s {
        UpdateActionItem(found.value.(status := s));
      }
    }

    /** handleClearPlan: the empty plan, and no selection. */
    method ClearPlan()
      modifies this, store
      ensures store.value == EmptyPlan && store.pending == Some(EmptyPlan) && store.slot == old(store.slot)
      ensures activeItemId.None? && isLoading == old(isLoading) && error == old(error)
    {
      store.SetValue(Value(EmptyPlan));
      activeItemId := None;
    }

    /** handleImportPlan: the imported plan exactly as given, and no selection. */
    method ImportPlan(imported: Plan)
      modifies this, store
      ensures store.value == imported && store.pending == Some(imported) && store.slot == old(store.slot)
      ensures activeItemId.None? && isLoading == old(isLoading) && error == old(error)
    {
      store.SetValue(Value(imported));
      activeItemId := None;
    }

    /** onSelectItem / onClose of the coach panel. */
    method SelectItem(id: Option<string>)
      modifies this
      ensures activeItemId == id && isLoading == old(isLoading) && error == old(error)
    {
      activeItemId := id;
    }

    /** handleSendCoachMessage, with `reply` the coach's outcome. Returns the
        history handed to the coach, or None when no item is active and
        nothing happens. */
    method SendCoachMessage(userMessage: string, reply: Outcome<string>) returns (sent: Option<seq<RequestTurn>>)
      modifies this, store
      ensures activeItemId == old(activeItemId) && error == old(error)
      ensures old(ActiveItem(store.value, activeItemId)).None? ==>
        && sent.None? && isLoading == old(isLoading) && store.State() == old(store.State())
      ensures old(ActiveItem(store.value, activeItemId)).Some? ==>
        var item := old(ActiveItem(store.value, activeItemId)).value;
        && sent == Some(RequestHistory(item.coachHistory))
        && store.value == AfterExchange(old(store.value), item, userMessage, reply)
        && store.pending == Some(store.value) && store.slot == old(store.slot)
        && !isLoading
    {
      var active := ActiveItem(store.value, activeItemId);
      if active.None? {
        return None;
      }
      var item := active.value;
      var updatedHistory := item.coachHistory + [CoachMessage(User, userMessage)];
      UpdateActionItem(item.(coachHistory := updatedHistory));
      isLoading := true;
      sent := Some(RequestHistory(item.coachHistory));
      var last := match reply
        case Done(text) => CoachMessage(Ai, text)
        case Threw(e) => CoachMessage(Ai, "Sorry, I couldn't respond. Error: " + ErrorMessage(e));
      UpdateActionItem(item.(coachHistory := updatedHistory + [last]));
      assert updatedHistory + [last] == FinalHistory(item.coachHistory, userMessage, reply);
      UpdateItemTwice(old(store.value), item.(coachHistory := updatedHistory), item.(coachHistory := updatedHistory + [last]));
      isLoading := false;
    }
  }

  /** After an exchange the coach panel shows the item with its extended history. */
  lemma ExchangeShowsInPanel(p: Plan, id: string, userMessage: string, reply: Outcome<string>)
    requires ActiveItem(p, Some(id)).Some?
    ensures var item := ActiveItem(p, Some(id)).value;
      ActiveItem(AfterExchange(p, item, userMessage, reply), Some(id))
        == Some(item.(coachHistory := FinalHistory(item.coachHistory, userMessage, reply)))
  {
    var item := ActiveItem(p, Some(id)).value;
    FindAfterUpdate(p, item.(coachHistory := FinalHistory(item.coachHistory, userMessage, reply)));
  }
}
