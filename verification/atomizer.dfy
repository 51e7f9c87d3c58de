/**
 * The check `atomizeText` makes on the language model's reply
 * (packages/text-atomizer/src/index.ts:87-142): the reply text must be JSON
 * with a string-or-null `subject` and a `predicate` object holding string
 * `text` and `verb` and string arrays `complements` and `adjuncts`. The
 * chat call that produces the reply is not modelled; the reply is an input.
 */
module TextAtomizer {
  import opened Wrappers
  import opened Json

  /** The errors, in the order the checks run. */
  datatype AtomizeError =
    | ParseFailed
    | NullReply
    | InvalidSubject
    | InvalidPredicate
    | InvalidText
    | InvalidVerb
    | InvalidComplements
    | InvalidComplementsItem
    | InvalidAdjuncts
    | InvalidAdjunctsItem

  /**
   * The message of each error the function raises itself; `parserMessage` is
   * the message of the parser's own error. Reading `subject` from a `null`
   * reply raises the runtime's `TypeError`, whose text is not the
   * repository's.
   */
  function Message(e: AtomizeError, parserMessage: string): Option<string> {
    match e
    case ParseFailed => Some("Failed to parse model JSON response: " + parserMessage)
    case NullReply => None
    case InvalidSubject => Some("Invalid subject in response")
    case InvalidPredicate => Some("Invalid predicate in response")
    case InvalidText => Some("Invalid predicate.text in response")
    case InvalidVerb => Some("Invalid predicate.verb in response")
    case InvalidComplements => Some("Invalid predicate.complements in response")
    case InvalidComplementsItem => Some("Invalid predicate.complements item in response")
    case InvalidAdjuncts => Some("Invalid predicate.adjuncts in response")
    case InvalidAdjunctsItem => Some("Invalid predicate.adjuncts item in response")
  }

  predicate IsString(v: Option<Json>) {
    v.Some? && v.value.JString?
  }

  /** `typeof v === 'string' || v === null`. */
  predicate IsStringOrNull(v: Option<Json>) {
    v.Some? && (v.value.JString? || v.value.JNull?)
  }

  predicate AllStrings(items: seq<Json>) {
    forall i :: 0 <= i < |items| ==> items[i].JString?
  }

  /** An array whose items are all strings. */
  predicate IsStringArray(v: Option<Json>) {
    v.Some? && v.value.JArray? && AllStrings(v.value.items)
  }

  /** `atomizeText` from the reply text on: parse, then each check in turn; the parsed value is returned as it is. */
  function Atomize(content: string): (r: Result<Json, AtomizeError>)
    ensures r.Err? <==> Parse(content).None? || !IsDecomposition(Parse(content).value)
    ensures r.Ok? ==> r.value == Parse(content).value
    ensures Parse(content).None? ==> r == Err(ParseFailed)
    ensures Parse(content) == Some(JNull) ==> r == Err(NullReply)
  {
    match Parse(content)
    case None => Err(ParseFailed)
    case Some(result) =>
      if result.JNull? then Err(NullReply)
      else
        var subject := Get(result, "subject");
        if !IsStringOrNull(subject) then Err(InvalidSubject)
        else
          var pred := Get(result, "predicate");
          if !(pred.Some? && pred.value.JObject?) then Err(InvalidPredicate)
          else
            var p := pred.value;
            if !IsString(Get(p, "text")) then Err(InvalidText)
            else if !IsString(Get(p, "verb")) then Err(InvalidVerb)
            else if !(Get(p, "complements").Some? && Get(p, "complements").value.JArray?) then Err(InvalidComplements)
            else if !AllStrings(Get(p, "complements").value.items) then Err(InvalidComplementsItem)
            else if !(Get(p, "adjuncts").Some? && Get(p, "adjuncts").value.JArray?) then Err(InvalidAdjuncts)
            else if !AllStrings(Get(p, "adjuncts").value.items) then Err(InvalidAdjunctsItem)
            else Ok(result)
  }

  /** The shape the reply must have, stated as one condition. */
  predicate IsDecomposition(v: Json) {
    IsStringOrNull(Get(v, "subject"))
    && Get(v, "predicate").Some? && Get(v, "predicate").value.JObject?
    && IsString(Get(Get(v, "predicate").value, "text"))
    && IsString(Get(Get(v, "predicate").value, "verb"))
    && IsStringArray(Get(Get(v, "predicate").value, "complements"))
    && IsStringArray(Get(Get(v, "predicate").value, "adjuncts"))
  }

  /** A reply that parses but is not an object fails on its subject, except `null`, which fails on the property read itself. */
  lemma NotAnObject(content: string)
    requires Parse(content).Some? && !Parse(content).value.JObject?
    ensures Atomize(content) == Err(if Parse(content).value.JNull? then NullReply else InvalidSubject)
  {
  }

  /** The first failing check decides the error: a bad subject is reported whatever the predicate holds. */
  lemma SubjectCheckedFirst(content: string)
    requires Parse(content).Some? && Parse(content).value.JObject?
    requires !IsStringOrNull(Get(Parse(content).value, "subject"))
    ensures Atomize(content) == Err(InvalidSubject)
  {
  }

  /** With a valid subject, a `predicate` that is missing or not an object is reported next. */
  lemma PredicateCheckedSecond(content: string)
    requires Parse(content).Some? && Parse(content).value.JObject?
    requires IsStringOrNull(Get(Parse(content).value, "subject"))
    requires !(Get(Parse(content).value, "predicate").Some? && Get(Parse(content).value, "predicate").value.JObject?)
    ensures Atomize(content) == Err(InvalidPredicate)
  {
  }

  /** Inside the predicate object, `text` is checked before `verb`. */
  lemma TextBeforeVerb(content: string)
    requires Parse(content).Some? && Parse(content).value.JObject?
    requires IsStringOrNull(Get(Parse(content).value, "subject"))
    requires Get(Parse(content).value, "predicate").Some? && Get(Parse(content).value, "predicate").value.JObject?
    ensures !IsString(Get(Get(Parse(content).value, "predicate").value, "text")) ==> Atomize(content) == Err(InvalidText)
    ensures (IsString(Get(Get(Parse(content).value, "predicate").value, "text"))
             && !IsString(Get(Get(Parse(content).value, "predicate").value, "verb")))
            ==> Atomize(content) == Err(InvalidVerb)
  {
  }

  /**
   * An array is checked for being an array before its items are checked,
   * and the complements before the adjuncts: each of the last four errors
   * is raised exactly when every earlier check has passed.
   */
  lemma ArrayChecks(content: string)
    requires Parse(content).Some? && Parse(content).value.JObject?
    requires IsStringOrNull(Get(Parse(content).value, "subject"))
    requires Get(Parse(content).value, "predicate").Some? && Get(Parse(content).value, "predicate").value.JObject?
    requires IsString(Get(Get(Parse(content).value, "predicate").value, "text"))
    requires IsString(Get(Get(Parse(content).value, "predicate").value, "verb"))
    ensures var complements := Get(Get(Parse(content).value, "predicate").value, "complements");
            Atomize(content) == Err(InvalidComplements) <==> !(complements.Some? && complements.value.JArray?)
    ensures var complements := Get(Get(Parse(content).value, "predicate").value, "complements");
            Atomize(content) == Err(InvalidComplementsItem)
            <==> complements.Some? && complements.value.JArray? && !AllStrings(complements.value.items)
    ensures var complements := Get(Get(Parse(content).value, "predicate").value, "complements");
            var adjuncts := Get(Get(Parse(content).value, "predicate").value, "adjuncts");
            Atomize(content) == Err(InvalidAdjuncts)
            <==> IsStringArray(complements) && !(adjuncts.Some? && adjuncts.value.JArray?)
    ensures var complements := Get(Get(Parse(content).value, "predicate").value, "complements");
            var adjuncts := Get(Get(Parse(content).value, "predicate").value, "adjuncts");
            Atomize(content) == Err(InvalidAdjunctsItem)
            <==> IsStringArray(complements) && adjuncts.Some? && adjuncts.value.JArray? && !AllStrings(adjuncts.value.items)
  {
  }

  /** Likewise the complements are checked in full before the adjuncts are looked at. */
  lemma ComplementsBeforeAdjuncts(content: string)
    requires Parse(content).Some? && Parse(content).value.JObject?
    requires IsStringOrNull(Get(Parse(content).value, "subject"))
    requires Get(Parse(content).value, "predicate").Some? && Get(Parse(content).value, "predicate").value.JObject?
    requires IsString(Get(Get(Parse(content).value, "predicate").value, "text"))
    requires IsString(Get(Get(Parse(content).value, "predicate").value, "verb"))
    requires !IsStringArray(Get(Get(Parse(content).value, "predicate").value, "complements"))
    ensures Atomize(content).Err?
    ensures Atomize(content).error == InvalidComplements || Atomize(content).error == InvalidComplementsItem
  {
  }

  /** The typed decomposition the reply is meant to carry. */
  datatype PredicateDecomposition = PredicateDecomposition(text: string, verb: string, complements: seq<string>, adjuncts: seq<string>)
  datatype Decomposition = Decomposition(subject: Option<string>, pred: PredicateDecomposition)

  function Strings(xs: seq<string>): (v: Json)
    ensures v.JArray? && |v.items| == |xs|
    ensures forall i :: 0 <= i < |xs| ==> v.items[i] == JString(xs[i])
  {
    JArray(seq(|xs|, i requires 0 <= i < |xs| => JString(xs[i])))
  }

  /** A decomposition as the JSON object the prompt asks for. */
  function ToJson(d: Decomposition): Json {
    JObject([
      Member("subject", if d.subject.Some? then JString(d.subject.value) else JNull),
      Member("predicate", JObject([
        Member("text", JString(d.pred.text)),
        Member("verb", JString(d.pred.verb)),
        Member("complements", Strings(d.pred.complements)),
        Member("adjuncts", Strings(d.pred.adjuncts))]))])
  }

  /** The properties of the predicate object `ToJson` writes. */
  lemma PredicateFields(d: PredicateDecomposition, ms: seq<Member>)
    requires ms == [Member("text", JString(d.text)), Member("verb", JString(d.verb)),
                    Member("complements", Strings(d.complements)), Member("adjuncts", Strings(d.adjuncts))]
    ensures Lookup(ms, "text") == Some(JString(d.text))
    ensures Lookup(ms, "verb") == Some(JString(d.verb))
    ensures Lookup(ms, "complements") == Some(Strings(d.complements))
    ensures Lookup(ms, "adjuncts") == Some(Strings(d.adjuncts))
  {
    assert ms[..3] == [ms[0], ms[1], ms[2]];
    assert ms[..3][..2] == [ms[0], ms[1]];
    assert ms[..3][..2][..1] == [ms[0]];
  }

  lemma ToJsonIsDecomposition(d: Decomposition)
    ensures IsDecomposition(ToJson(d))
  {
    var v := ToJson(d);
    assert v.members[..1] == [v.members[0]];
    PredicateFields(d.pred, Get(v, "predicate").value.members);
  }

  /** Every decomposition, empty arrays and a null subject included, passes the check when written as JSON, and comes back unchanged. */
  lemma {:induction false} AcceptsEveryDecomposition(d: Decomposition)
    ensures Atomize(Stringify(ToJson(d))) == Ok(ToJson(d))
  {
    ParseStringify(ToJson(d));
    ToJsonIsDecomposition(d);
  }
}
