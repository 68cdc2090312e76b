/** Card-level rules: a field edit copies the item with one field replaced,
    Enter advances the status in declaration order, and the cost input is
    read with `parseInt(text, 10) || 0`. */
module ActionItemCard {
  import opened Types
  import opened Common

  // ---------------------------------------------------------------------------
  // Field edits (handleChange)
  // ---------------------------------------------------------------------------

  /** The four fields a card edits, each carrying a value its enum lists. */
  datatype FieldEdit =
    | ControlEdit(control: Control)
    | EffortEdit(effort: Effort)
    | CostEdit(cost: int)
    | StatusEdit(status: Status)

  /** `{ ...item, [field]: value }`. */
  function HandleChange(item: ActionItem, edit: FieldEdit): (r: ActionItem)
    ensures r.id == item.id && r.title == item.title && r.why == item.why
    ensures r.sourceCitation == item.sourceCitation && r.coachHistory == item.coachHistory
    ensures r.control == (if edit.ControlEdit? then edit.control else item.control)
    ensures r.effort == (if edit.EffortEdit? then edit.effort else item.effort)
    ensures r.cost == (if edit.CostEdit? then edit.cost else item.cost)
    ensures r.status == (if edit.StatusEdit? then edit.status else item.status)
  {
    match edit
    case ControlEdit(c) => item.(control := c)
    case EffortEdit(e) => item.(effort := e)
    case CostEdit(n) => item.(cost := n)
    case StatusEdit(s) => item.(status := s)
  }

  /** Applying the same edit again changes nothing more. */
  lemma HandleChangeIdempotent(item: ActionItem, edit: FieldEdit)
    ensures HandleChange(HandleChange(item, edit), edit) == HandleChange(item, edit)
  {
  }

  /** The select boxes offer exactly the enum values, so whatever option is
      picked reads back as a member: `e.target.value as Control` never yields
      anything outside the enum. */
  lemma SelectOptionsAreMembers(v: string)
    ensures v in Map(StatusValue, AllStatuses()) ==> ParseStatus(v).Some?
    ensures v in Map(ControlValue, AllControls()) ==> ParseControl(v).Some?
    ensures v in Map(EffortValue, AllEfforts()) ==> ParseEffort(v).Some?
  {
    forall s | v == StatusValue(s) ensures ParseStatus(v).Some? {
      EncodingsRoundTrip(s, Mine, Low, User);
    }
    forall c | v == ControlValue(c) ensures ParseControl(v).Some? {
      EncodingsRoundTrip(Now, c, Low, User);
    }
    forall e | v == EffortValue(e) ensures ParseEffort(v).Some? {
      EncodingsRoundTrip(Now, Mine, e, User);
    }
    MapMembership(StatusValue, AllStatuses(), v);
    MapMembership(ControlValue, AllControls(), v);
    MapMembership(EffortValue, AllEfforts(), v);
  }

  function Map<A, B>(f: A -> B, xs: seq<A>): (r: seq<B>)
    ensures |r| == |xs| && forall i :: 0 <= i < |xs| ==> r[i] == f(xs[i])
  {
    seq(|xs|, i requires 0 <= i < |xs| => f(xs[i]))
  }

  lemma MapMembership<A, B>(f: A -> B, xs: seq<A>, v: B)
    ensures v in Map(f, xs) ==> exists x :: x in xs && v == f(x)
  {
    if v in Map(f, xs) {
      var i :| 0 <= i < |xs| && Map(f, xs)[i] == v;
      assert xs[i] in xs;
    }
  }

  // ---------------------------------------------------------------------------
  // Enter cycles the status (handleKeyDown)
  // ---------------------------------------------------------------------------

  /** `Array.prototype.indexOf`: the first position of `x`, or -1. */
  function IndexOf<T(==)>(xs: seq<T>, x: T): (r: int)
    ensures -1 <= r < |xs|
    ensures r >= 0 ==> xs[r] == x && forall j :: 0 <= j < r ==> xs[j] != x
    ensures r == -1 ==> forall j :: 0 <= j < |xs| ==> xs[j] != x
  {
    if xs == [] then -1
    else if xs[0] == x then 0
    else
      var k := IndexOf(xs[1..], x);
      if k == -1 then -1 else k + 1
  }

  /** `statuses[(statuses.indexOf(status) + 1) % statuses.length]`. */
  function NextStatus(s: Status): (r: Status)
    ensures r != s
    ensures IndexOf(AllStatuses(), r) == (IndexOf(AllStatuses(), s) + 1) % |AllStatuses()|
  {
    StatusPositions();
    var statuses := AllStatuses();
    var i := IndexOf(statuses, s);
    statuses[(i + 1) % |statuses|]
  }

  /** Enter moves along the declaration order and wraps from Skip to Now. */
  lemma NextStatusFollowsDeclarationOrder(s: Status)
    ensures IndexOf(AllStatuses(), s) >= 0
    ensures NextStatus(s) == AllStatuses()[(IndexOf(AllStatuses(), s) + 1) % 4]
    ensures NextStatus(Now) == Next && NextStatus(Next) == Later
    ensures NextStatus(Later) == Skip && NextStatus(Skip) == Now
  {
    StatusPositions();
  }

  /** Each status sits at its declaration position in `Object.values(Status)`. */
  lemma StatusPositions()
    ensures IndexOf(AllStatuses(), Now) == 0 && IndexOf(AllStatuses(), Next) == 1
    ensures IndexOf(AllStatuses(), Later) == 2 && IndexOf(AllStatuses(), Skip) == 3
  {
    var a := AllStatuses();
    assert a[0] == Now && a[1] == Next && a[2] == Later && a[3] == Skip;
  }

  /** Pressing Enter never leaves the status where it was, and four presses
      bring it back. */
  lemma NextStatusHasPeriodFour(s: Status)
    ensures NextStatus(s) != s
    ensures NextStatus(NextStatus(NextStatus(NextStatus(s)))) == s
  {
    NextStatusFollowsDeclarationOrder(s);
  }

  /** The card after a key press: Enter advances the status; any other key
      leaves the item as it is. */
  function HandleKeyDown(item: ActionItem, key: string): (r: ActionItem)
    ensures key != "Enter" ==> r == item
    ensures key == "Enter" ==> r == item.(status := NextStatus(item.status))
  {
    if key == "Enter" then HandleChange(item, StatusEdit(NextStatus(item.status))) else item
  }

  // ---------------------------------------------------------------------------
  // The cost input: parseInt(text, 10) || 0
  // ---------------------------------------------------------------------------

  /** `text` without its leading whitespace. */
  function TrimStart(s: string): (r: string)
    ensures |r| <= |s| && r == s[|s| - |r|..]
    ensures r == [] || !IsWhitespace(r[0])
    ensures forall i :: 0 <= i < |s| - |r| ==> IsWhitespace(s[i])
  {
    if s == [] || !IsWhitespace(s[0]) then s else TrimStart(s[1..])
  }

  /** The longest prefix of `s` made of decimal digits. */
  function DigitPrefix(s: string): (r: string)
    ensures |r| <= |s| && r == s[..|r|]
    ensures forall i :: 0 <= i < |r| ==> IsDigit(r[i])
    ensures |r| == |s| || !IsDigit(s[|r|])
  {
    if s == [] || !IsDigit(s[0]) then [] else [s[0]] + DigitPrefix(s[1..])
  }

  function DigitsValue(ds: string): nat
    requires forall i :: 0 <= i < |ds| ==> IsDigit(ds[i])
  {
    if ds == [] then 0
    else
      assert IsDigit(ds[|ds| - 1]);
      var d := ds[|ds| - 1] as int - '0' as int;
      DigitsValue(ds[..|ds| - 1]) * 10 + d
  }

  /** `parseInt(text, 10)`: None stands for NaN (no digit after the optional sign). */
  function ParseInt(text: string): (r: Option<int>)
    ensures (forall i :: 0 <= i < |text| ==> !IsDigit(text[i])) ==> r.None?
    ensures r.Some? && TrimStart(text) != [] && TrimStart(text)[0] == '-' ==> r.value <= 0
    ensures r.Some? && (TrimStart(text) == [] || TrimStart(text)[0] != '-') ==> r.value >= 0
  {
    var t := TrimStart(text);
    var negative := t != [] && t[0] == '-';
    var unsigned := if t != [] && (t[0] == '-' || t[0] == '+') then t[1..] else t;
    var ds := DigitPrefix(unsigned);
    if ds == [] then None
    else if negative then Some(0 - DigitsValue(ds))
    else Some(DigitsValue(ds))
  }

  /** `parseInt(text, 10) || 0`: NaN and (negative) zero become 0; a negative
      number is kept, since the input's `min` is only a hint to the browser. */
  function CostInput(text: string): (r: int)
    ensures ParseInt(text).None? ==> r == 0
    ensures ParseInt(text).Some? ==> r == ParseInt(text).value
  {
    match ParseInt(text)
    case None => 0
    case Some(n) => n
  }

  /** The cost field's edit: a copy of the item with the parsed cost. */
  function CostChange(item: ActionItem, text: string): (r: ActionItem)
    ensures r == item.(cost := CostInput(text))
  {
    HandleChange(item, CostEdit(CostInput(text)))
  }

  /** A text without any digit reads as cost 0. */
  lemma CostInputWithoutDigits(text: string)
    requires forall i :: 0 <= i < |text| ==> !IsDigit(text[i])
    ensures CostInput(text) == 0
  {
  }

  // The decimal text the input shows for a cost (`value={item.cost}`).

  function DigitChar(d: nat): (c: char)
    requires d < 10
    ensures IsDigit(c)
  {
    (d + '0' as int) as char
  }

  function NatDigits(n: nat): (r: string)
    ensures r != [] && forall i :: 0 <= i < |r| ==> IsDigit(r[i])
  {
    if n < 10 then [DigitChar(n)] else NatDigits(n / 10) + [DigitChar(n % 10)]
  }

  function IntText(n: int): string {
    if n < 0 then "-" + NatDigits(-n) else NatDigits(n)
  }

  lemma {:induction false} NatDigitsValue(n: nat)
    ensures DigitsValue(NatDigits(n)) == n
  {
    if n >= 10 {
      NatDigitsValue(n / 10);
      var ds := NatDigits(n);
      assert ds[..|ds| - 1] == NatDigits(n / 10);
    }
  }

  lemma DigitPrefixOfDigits(ds: string, rest: string)
    requires forall i :: 0 <= i < |ds| ==> IsDigit(ds[i])
    requires rest == [] || !IsDigit(rest[0])
    ensures DigitPrefix(ds + rest) == ds
  {
    assert (ds + rest)[..|ds|] == ds;
  }

  /** parseInt reads a cost's own decimal text back, and stops at the first
      character that is not a digit ("12abc" and "12.5" read as 12). Typing
      the number the field shows gives that number back, negatives included. */
  lemma {:induction false} CostInputReadsDecimalText(n: int, rest: string)
    requires rest == [] || !IsDigit(rest[0])
    ensures CostInput(IntText(n) + rest) == n
  {
    var m: nat := if n < 0 then -n else n;
    var ds := NatDigits(m);
    NatDigitsValue(m);
    DigitPrefixOfDigits(ds, rest);
    var text := IntText(n) + rest;
    assert !IsWhitespace(text[0]);
    assert TrimStart(text) == text;
    if n < 0 {
      assert text[1..] == ds + rest;
    } else {
      assert text == ds + rest;
      assert text[0] != '-' && text[0] != '+';
    }
  }
}
