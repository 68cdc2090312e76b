/** Header rules: the export file name, the export button's enabling, and the
    structural check that decides whether a parsed file reaches the import
    handler. */
module Header {
  import opened Types
  import opened Common

  // ---------------------------------------------------------------------------
  // Export file name: eventName.replace(/\s+/g, '_') + '_' + date + '.json'
  // ---------------------------------------------------------------------------

  function Last(s: string): char
    requires s != []
  {
    s[|s| - 1]
  }

  /** `s` without its trailing run of whitespace. */
  function DropTrailingWhitespace(s: string): (r: string)
    ensures |r| <= |s| && r == s[..|r|]
    ensures r == [] || !IsWhitespace(Last(r))
    ensures forall i :: |r| <= i < |s| ==> IsWhitespace(s[i])
  {
    if s == [] || !IsWhitespace(Last(s)) then s else DropTrailingWhitespace(s[..|s| - 1])
  }

  /** Each maximal run of whitespace becomes a single '_'. */
  function Sanitize(name: string): (r: string)
    ensures NoWhitespace(r)
    ensures |r| <= |name|
    decreases |name|
  {
    if name == [] then []
    else if !IsWhitespace(Last(name)) then Sanitize(name[..|name| - 1]) + [Last(name)]
    else Sanitize(DropTrailingWhitespace(name)) + "_"
  }

  /** The characters of `s` that are not whitespace, in order. */
  function NonWhitespace(s: string): (r: string)
    ensures NoWhitespace(r)
  {
    if s == [] then []
    else if IsWhitespace(Last(s)) then NonWhitespace(s[..|s| - 1])
    else NonWhitespace(s[..|s| - 1]) + [Last(s)]
  }

  /** A name without whitespace is left as it is, and only such a name is. */
  lemma {:induction false} SanitizeFixesExactlySpaceFree(s: string)
    ensures Sanitize(s) == s <==> NoWhitespace(s)
    decreases |s|
  {
    if s != [] && NoWhitespace(s) {
      assert !IsWhitespace(s[|s| - 1]);
      SanitizeFixesExactlySpaceFree(s[..|s| - 1]);
    }
  }

  /** Sanitising twice is sanitising once. */
  lemma SanitizeIdempotent(s: string)
    ensures Sanitize(Sanitize(s)) == Sanitize(s)
  {
    SanitizeFixesExactlySpaceFree(Sanitize(s));
  }

  lemma {:induction false} NonWhitespaceIgnoresTrailingRun(s: string)
    ensures NonWhitespace(DropTrailingWhitespace(s)) == NonWhitespace(s)
    decreases |s|
  {
    if s != [] && IsWhitespace(Last(s)) {
      NonWhitespaceIgnoresTrailingRun(s[..|s| - 1]);
    }
  }

  /** Every non-whitespace character of the name survives, in order. */
  lemma {:induction false} SanitizeKeepsNonWhitespace(s: string)
    ensures IsSubsequence(NonWhitespace(s), Sanitize(s))
    decreases |s|
  {
    if s != [] {
      var init := s[..|s| - 1];
      if !IsWhitespace(Last(s)) {
        SanitizeKeepsNonWhitespace(init);
        var a, b := NonWhitespace(init), Sanitize(init);
        assert (a + [Last(s)])[..|a|] == a;
        assert (b + [Last(s)])[..|b|] == b;
      } else {
        var t := DropTrailingWhitespace(s);
        SanitizeKeepsNonWhitespace(t);
        NonWhitespaceIgnoresTrailingRun(s);
        var b := Sanitize(t);
        assert (b + "_")[..|b|] == b;
      }
    }
  }

  lemma {:induction false} DropTrailingRun(t: string, run: string)
    requires t == [] || !IsWhitespace(Last(t))
    requires forall i :: 0 <= i < |run| ==> IsWhitespace(run[i])
    ensures DropTrailingWhitespace(t + run) == t
    decreases |run|
  {
    if run == [] {
      assert t + run == t;
    } else {
      var run' := run[..|run| - 1];
      assert (t + run)[..|t + run| - 1] == t + run';
      DropTrailingRun(t, run');
    }
  }

  /** The run structure: a whitespace run between a prefix that does not end
      in whitespace and a whitespace-free word becomes exactly one '_'. With
      SanitizeFixesExactlySpaceFree this determines Sanitize on every name. */
  lemma {:induction false} SanitizeRun(t: string, run: string, word: string)
    requires t == [] || !IsWhitespace(Last(t))
    requires run != [] && forall i :: 0 <= i < |run| ==> IsWhitespace(run[i])
    requires NoWhitespace(word)
    ensures Sanitize(t + run + word) == Sanitize(t) + "_" + word
    decreases |word|
  {
    if word == [] {
      assert t + run + word == t + run;
      DropTrailingRun(t, run);
    } else {
      var w' := word[..|word| - 1];
      SanitizeRun(t, run, w');
      assert (t + run + word)[..|t + run + word| - 1] == t + run + w';
    }
  }

  /** Slicing as `String.prototype.slice(0, n)` does: a shorter string is kept whole. */
  function Prefix(s: string, n: nat): (r: string)
    ensures |r| == if |s| < n then |s| else n
    ensures r == s[..|r|]
  {
    if |s| < n then s else s[..n]
  }

  /** The download name for a plan exported on the day `isoDate` names
      (an ISO 8601 timestamp, whose first ten characters are YYYY-MM-DD). */
  function ExportFileName(eventName: string, isoDate: string): (r: string)
    ensures |r| >= |Sanitize(eventName)| + 6
    ensures r[..|Sanitize(eventName)| + 1] == Sanitize(eventName) + "_"
    ensures r[|r| - 5..] == ".json"
    ensures |isoDate| >= 10 ==> r[|Sanitize(eventName)| + 1..|r| - 5] == isoDate[..10]
  {
    var head, date := Sanitize(eventName) + "_", Prefix(isoDate, 10);
    assert (head + date + ".json")[..|head|] == head;
    assert (head + date + ".json")[|head|..] == date + ".json";
    head + date + ".json"
  }

  lemma NoWhitespaceConcat(a: string, b: string)
    requires NoWhitespace(a) && NoWhitespace(b)
    ensures NoWhitespace(a + b)
  {
    forall i | 0 <= i < |a + b| ensures !IsWhitespace((a + b)[i]) {
      if i >= |a| {
        assert (a + b)[i] == b[i - |a|];
      }
    }
  }

  /** The file name contains no whitespace as long as the date does not
      (an ISO timestamp never does). */
  lemma ExportFileNameHasNoWhitespace(eventName: string, isoDate: string)
    requires NoWhitespace(isoDate)
    ensures NoWhitespace(ExportFileName(eventName, isoDate))
  {
    var date := Prefix(isoDate, 10);
    assert NoWhitespace(date) by {
      forall i | 0 <= i < |date| ensures !IsWhitespace(date[i]) {
        assert date[i] == isoDate[i];
      }
    }
    NoWhitespaceConcat(Sanitize(eventName), "_");
    NoWhitespaceConcat(Sanitize(eventName) + "_", date);
    NoWhitespaceConcat(Sanitize(eventName) + "_" + date, ".json");
  }

  /** The export button is disabled exactly when the plan has no items. */
  function ExportDisabled(p: Plan): (r: bool)
    ensures r <==> p.actionItems == []
  {
    |p.actionItems| == 0
  }

  // ---------------------------------------------------------------------------
  // Import: the value JSON.parse produced, and the structural check on it
  // ---------------------------------------------------------------------------

  /** A parsed JSON value (numbers restricted to integers). */
  datatype Json =
    | JNull
    | JBool(b: bool)
    | JNumber(n: int)
    | JString(s: string)
    | JArray(elems: seq<Json>)
    | JObject(fields: map<string, Json>)

  /** JavaScript truthiness of a property value; a missing property is undefined, hence falsy. */
  predicate Truthy(v: Option<Json>) {
    match v
    case None => false
    case Some(JNull) => false
    case Some(JBool(b)) => b
    case Some(JNumber(n)) => n != 0
    case Some(JString(s)) => s != ""
    case Some(_) => true
  }

  /** Property access `j[key]` on a non-null value: only objects have own keys. */
  function Property(j: Json, key: string): Option<Json> {
    if j.JObject? && key in j.fields then Some(j.fields[key]) else None
  }

  /** `importedPlan.eventName && Array.isArray(importedPlan.actionItems)`. */
  predicate LooksLikePlan(j: Json): (r: bool)
    ensures r <==>
      && j.JObject?
      && "eventName" in j.fields
      && j.fields["eventName"] !in {JNull, JBool(false), JNumber(0), JString("")}
      && "actionItems" in j.fields
      && j.fields["actionItems"].JArray?
  {
    && Truthy(Property(j, "eventName"))
    && Property(j, "actionItems").Some?
    && Property(j, "actionItems").value.JArray?
  }

  /** What happens to a chosen file: handed to the import handler, or refused
      with the "invalid format" alert, or refused with the "error parsing" alert. */
  datatype ImportOutcome = Imported(value: Json) | InvalidFormat | ParseError

  /** `parsed` is JSON.parse's result, None when it threw. Reading a property
      of `null` throws inside the same try, so a parsed `null` is a parse error. */
  function ReadImport(parsed: Option<Json>): (r: ImportOutcome)
    ensures r.Imported? <==> parsed.Some? && !parsed.value.JNull? && LooksLikePlan(parsed.value)
    ensures r.Imported? ==> r.value == parsed.value
    ensures r.ParseError? <==> parsed.None? || parsed.value.JNull?
  {
    match parsed
    case None => ParseError
    case Some(JNull) => ParseError
    case Some(j) => if LooksLikePlan(j) then Imported(j) else InvalidFormat
  }

  // ---------------------------------------------------------------------------
  // The JSON value an exported plan parses back to
  // ---------------------------------------------------------------------------

  function MessageJson(m: CoachMessage): Json {
    JObject(map["sender" := JString(SenderValue(m.sender)), "text" := JString(m.text)])
  }

  function ItemJson(it: ActionItem): Json {
    JObject(map[
      "id" := JString(it.id),
      "title" := JString(it.title),
      "why" := JString(it.why),
      "sourceCitation" := JString(it.sourceCitation),
      "status" := JString(StatusValue(it.status)),
      "control" := JString(ControlValue(it.control)),
      "effort" := JString(EffortValue(it.effort)),
      "cost" := JNumber(it.cost),
      "coachHistory" := JArray(seq(|it.coachHistory|, i requires 0 <= i < |it.coachHistory| => MessageJson(it.coachHistory[i])))
    ])
  }

  function PlanJson(p: Plan): Json {
    JObject(map[
      "eventName" := JString(p.eventName),
      "sourceText" := JString(p.sourceText),
      "actionItems" := JArray(seq(|p.actionItems|, i requires 0 <= i < |p.actionItems| => ItemJson(p.actionItems[i])))
    ])
  }

  /** An exported plan is accepted back unchanged exactly when its event name
      is non-empty; a plan whose name was cleared exports but is refused on import. */
  lemma ExportThenImport(p: Plan)
    ensures p.eventName != "" ==> ReadImport(Some(PlanJson(p))) == Imported(PlanJson(p))
    ensures p.eventName == "" ==> ReadImport(Some(PlanJson(p))) == InvalidFormat
  {
  }
}
