/** The plan's data model: three string enums, coach messages, action items and plans. */
module Types {

  datatype Option<T> = None | Some(value: T)

  /** Triage column of an item. */
  datatype Status = Now | Next | Later | Skip

  /** Who executes the action. */
  datatype Control = Mine | ThirdParty

  datatype Effort = Low | Medium | High

  datatype Sender = User | Ai

  datatype CoachMessage = CoachMessage(sender: Sender, text: string)

  datatype ActionItem = ActionItem(
    id: string,
    title: string,
    why: string,
    sourceCitation: string,
    status: Status,
    control: Control,
    effort: Effort,
    cost: int,
    coachHistory: seq<CoachMessage>)

  datatype Plan = Plan(eventName: string, sourceText: string, actionItems: seq<ActionItem>)

  // ---------------------------------------------------------------------------
  // String encodings of the enums and of the sender tag
  // ---------------------------------------------------------------------------

  function StatusValue(s: Status): string {
    match s
    case Now => "Now"
    case Next => "Next"
    case Later => "Later"
    case Skip => "Skip"
  }

  function ControlValue(c: Control): string {
    match c
    case Mine => "Mine"
    case ThirdParty => "3rd-party"
  }

  function EffortValue(e: Effort): string {
    match e
    case Low => "L"
    case Medium => "M"
    case High => "H"
  }

  function SenderValue(s: Sender): string {
    match s
    case User => "user"
    case Ai => "ai"
  }

  /** Reads an enum string back; None for a string that is no member's value. */
  function ParseStatus(v: string): (r: Option<Status>)
    ensures r.Some? ==> StatusValue(r.value) == v
    ensures r.None? ==> forall s :: StatusValue(s) != v
  {
    if v == "Now" then Some(Now)
    else if v == "Next" then Some(Next)
    else if v == "Later" then Some(Later)
    else if v == "Skip" then Some(Skip)
    else None
  }

  function ParseControl(v: string): (r: Option<Control>)
    ensures r.Some? ==> ControlValue(r.value) == v
    ensures r.None? ==> forall c :: ControlValue(c) != v
  {
    if v == "Mine" then Some(Mine)
    else if v == "3rd-party" then Some(ThirdParty)
    else None
  }

  function ParseEffort(v: string): (r: Option<Effort>)
    ensures r.Some? ==> EffortValue(r.value) == v
    ensures r.None? ==> forall e :: EffortValue(e) != v
  {
    if v == "L" then Some(Low)
    else if v == "M" then Some(Medium)
    else if v == "H" then Some(High)
    else None
  }

  function ParseSender(v: string): (r: Option<Sender>)
    ensures r.Some? ==> SenderValue(r.value) == v
    ensures r.None? ==> forall s :: SenderValue(s) != v
  {
    if v == "user" then Some(User)
    else if v == "ai" then Some(Ai)
    else None
  }

  /** Decoding an encoded value gives back the same constructor, so the
      encodings within each enum are pairwise distinct. */
  lemma EncodingsRoundTrip(s: Status, c: Control, e: Effort, who: Sender)
    ensures ParseStatus(StatusValue(s)) == Some(s)
    ensures ParseControl(ControlValue(c)) == Some(c)
    ensures ParseEffort(EffortValue(e)) == Some(e)
    ensures ParseSender(SenderValue(who)) == Some(who)
  {
  }

  lemma {:induction false} EncodingsInjective(s1: Status, s2: Status, c1: Control, c2: Control, e1: Effort, e2: Effort)
    ensures StatusValue(s1) == StatusValue(s2) ==> s1 == s2
    ensures ControlValue(c1) == ControlValue(c2) ==> c1 == c2
    ensures EffortValue(e1) == EffortValue(e2) ==> e1 == e2
  {
    EncodingsRoundTrip(s1, c1, e1, User);
    EncodingsRoundTrip(s2, c2, e2, User);
  }

  // ---------------------------------------------------------------------------
  // Object.values of each enum: the members in declaration order
  // ---------------------------------------------------------------------------

  function AllStatuses(): (r: seq<Status>)
    ensures |r| == 4
    ensures Now in r && Next in r && Later in r && Skip in r
    ensures forall i, j :: 0 <= i < j < |r| ==> r[i] != r[j]
  {
    [Now, Next, Later, Skip]
  }

  function AllControls(): (r: seq<Control>)
    ensures |r| == 2 && Mine in r && ThirdParty in r
  {
    [Mine, ThirdParty]
  }

  function AllEfforts(): (r: seq<Effort>)
    ensures |r| == 3 && Low in r && Medium in r && High in r
  {
    [Low, Medium, High]
  }
}
