/**
 * The value-resolution logic shared by every Active Choices parameter: the
 * abstract Uno Choice parameter of the plugin. A concrete parameter supplies
 * its choices through `getChoices`, modelled here as a function value; the
 * parameter turns raw strings and form submissions into string parameter
 * values, derives a default from the choices, and caps the number of
 * visible items in a select list.
 */
module UnoChoice {
  import opened Wrappers
  import opened CommaText

  // ---------------------------------------------------------------------
  // Constants

  /** The most items a select list shows at once. */
  const DefaultMaxVisibleItemCount: nat := 10

  /** The parameter (widget) types a concrete parameter may report. */
  datatype ParameterType = SingleSelect | MultiSelect | CheckBox | Radio
  {
    /** The text the parameter reports for this type, as seen by the page's scripts. */
    function Code(): string
    {
      match this
      case SingleSelect => "PT_SINGLE_SELECT"
      case MultiSelect => "PT_MULTI_SELECT"
      case CheckBox => "PT_CHECKBOX"
      case Radio => "PT_RADIO"
    }
  }

  /** The element types a concrete parameter may render its choices as. */
  datatype ElementType = TextBox | OrderedList | UnorderedList | FormattedHtml | FormattedHiddenHtml | ImageGallery
  {
    function Code(): string
    {
      match this
      case TextBox => "ET_TEXT_BOX"
      case OrderedList => "ET_ORDERED_LIST"
      case UnorderedList => "ET_UNORDERED_LIST"
      case FormattedHtml => "ET_FORMATTED_HTML"
      case FormattedHiddenHtml => "ET_FORMATTED_HIDDEN_HTML"
      case ImageGallery => "ET_IMAGE_GALLERY"
    }
  }

  /** The type codes are unambiguous: no two types share a code, and the two families never meet. */
  lemma TypeCodesDistinct()
    ensures forall a: ParameterType, b: ParameterType :: a.Code() == b.Code() ==> a == b
    ensures forall a: ElementType, b: ElementType :: a.Code() == b.Code() ==> a == b
    ensures forall a: ParameterType, b: ElementType :: a.Code() != b.Code()
  {
  }

  // ---------------------------------------------------------------------
  // Data model

  /**
   * A key of a choice map. Java looks a key up by `equals`, so an Integer,
   * a Long and a String that print alike are still different keys.
   */
  datatype Key = IntegerKey(i: int) | LongKey(l: int) | StringKey(s: string)

  /** The key that `choices.get(0)` looks up: the literal 0, boxed as an Integer. */
  const ZeroKey: Key := IntegerKey(0)

  /** A choice map: each key maps to the text of its entry, or to `None` for a null entry. */
  type Choices = map<Key, Option<string>>

  /** The values of the parameters already resolved, by name. */
  type Context = map<string, string>

  /** The context the parameter passes when it asks for its choices: nothing is known yet. */
  const EmptyContext: Context := map[]

  /** What a concrete parameter computes from a context; `None` is a null map. */
  type Provider = Context -> Option<Choices>

  /** A parameter definition: its own name and description plus the two abstract operations. */
  datatype ChoiceParameter = ChoiceParameter(
    name: string,
    description: Option<string>,
    getChoices: Provider,
    choiceType: string)

  /** A string parameter value: any of its three fields may be null. */
  datatype ParameterValue = ParameterValue(name: Option<string>, value: Option<string>, description: Option<string>)

  /**
   * The `value` of a submitted form: a JSON array of element texts, or
   * anything else, given by the text `String.valueOf` makes of it when it
   * is not null (`None` when it is null or missing).
   */
  datatype JsonValue = Scalar(text: Option<string>) | Array(elements: seq<string>)

  /** A submitted form: its `name` field (`None` when null or missing) and its `value` field. */
  datatype Submission = Submission(name: Option<string>, value: JsonValue)

  /** The only exception the core itself can raise. */
  datatype Exception = NullPointerException

  // ---------------------------------------------------------------------
  // Creating a value from a string

  /** The value for a raw string: the string itself, null included, under the definition's name and description. */
  function CreateValue(p: ChoiceParameter, value: Option<string>): (r: ParameterValue)
    ensures r.value == value
    ensures r.name == Some(p.name) && r.description == p.description
  {
    ParameterValue(Some(p.name), value, p.description)
  }

  // ---------------------------------------------------------------------
  // Creating a value from a form submission

  /** The text a submitted value is stored as. */
  function ValueAsText(v: JsonValue): (t: string)
    ensures v.Scalar? && v.text.None? ==> t == "null"
    ensures v.Scalar? && v.text.Some? ==> t == v.text.value
    ensures v.Array? && |v.elements| == 0 ==> t == ""
    ensures v.Array? && |v.elements| == 1 ==> t == v.elements[0]
    ensures v.Array? && |v.elements| > 0 && NoSeparator(v.elements) ==> Split(t) == v.elements
    ensures v.Array? ==> t == Join(v.elements)
  {
    match v
    case Array(xs) =>
      var t := Join(xs);
      assert |xs| > 0 && NoSeparator(xs) ==> Split(t) == xs by {
        if |xs| > 0 && NoSeparator(xs) { SplitJoin(xs); }
      }
      t
    case Scalar(None) => "null"
    case Scalar(Some(s)) => s
  }

  /** The value for a submitted form: the submission's name, its value as text, the definition's description. */
  function CreateValueFromSubmission(p: ChoiceParameter, sub: Submission): (r: ParameterValue)
    ensures r.name == sub.name
    ensures r.value == Some(ValueAsText(sub.value))
    ensures r.description == p.description
  {
    var valueAsText := ValueAsText(sub.value);
    var bound := ParameterValue(sub.name, Some(valueAsText), None);
    bound.(description := p.description)
  }

  // ---------------------------------------------------------------------
  // The default value

  /** The default text for the choices a provider returned; never null. */
  function DefaultText(choices: Option<Choices>): (t: string)
    ensures choices.None? ==> t == ""
    ensures choices.Some? && ZeroKey !in choices.value ==> t == ""
    ensures choices.Some? && ZeroKey in choices.value && choices.value[ZeroKey].None? ==> t == ""
    ensures choices.Some? && ZeroKey in choices.value && choices.value[ZeroKey].Some? ==>
              t == choices.value[ZeroKey].value
  {
    var firstElement: Option<string> :=
      if choices.Some? && |choices.value| > 0 then
        (if ZeroKey in choices.value then choices.value[ZeroKey] else None)
      else Some("");
    match firstElement
    case None => ""
    case Some(s) => s
  }

  /** The default value: the parameter's name, the default text of the choices for the empty context, no description. */
  function DefaultParameterValue(p: ChoiceParameter): (r: ParameterValue)
    ensures r.name == Some(p.name) && r.description == None
    ensures r.value == Some(DefaultText(p.getChoices(EmptyContext)))
  {
    var choices := p.getChoices(EmptyContext);
    var value := DefaultText(choices);
    ParameterValue(Some(p.name), Some(value), None)
  }

  // ---------------------------------------------------------------------
  // The number of visible items

  /** The smaller of the number of choices and the visible-item maximum. */
  function VisibleCount(choices: Choices): (n: nat)
    ensures n <= DefaultMaxVisibleItemCount && n <= |choices|
    ensures n == |choices| || n == DefaultMaxVisibleItemCount
  {
    var choicesSize := |choices|;
    if choicesSize < DefaultMaxVisibleItemCount then choicesSize else DefaultMaxVisibleItemCount
  }

  /** The number of visible items for the choices of the empty context; a null map throws. */
  function GetVisibleItemCount(p: ChoiceParameter): (r: Result<nat, Exception>)
    ensures r.Failure? <==> p.getChoices(EmptyContext).None?
    ensures r.Success? ==> r.value == VisibleCount(p.getChoices(EmptyContext).value)
  {
    match p.getChoices(EmptyContext)
    case None => Failure(NullPointerException)
    case Some(choices) => Success(VisibleCount(choices))
  }

  // ---------------------------------------------------------------------
  // Properties relating the operations

  /**
   * Both operations that consult the provider ask it about the empty context
   * only: parameters that agree there get the same default and the same count.
   */
  lemma ProviderConsultedAtEmptyContextOnly(p: ChoiceParameter, q: ChoiceParameter)
    requires p.name == q.name
    requires p.getChoices(EmptyContext) == q.getChoices(EmptyContext)
    ensures DefaultParameterValue(p) == DefaultParameterValue(q)
    ensures GetVisibleItemCount(p) == GetVisibleItemCount(q)
  {
  }

  /** The default depends only on the entry under the Integer key 0, whatever else the map holds. */
  lemma DefaultIgnoresOtherKeys(m: Choices, k: Key, v: Option<string>)
    requires k != ZeroKey
    ensures DefaultText(Some(m[k := v])) == DefaultText(Some(m))
  {
  }

  /** Adding choices never lowers the visible count. */
  lemma {:induction false} VisibleCountMonotone(m: Choices, m': Choices)
    requires m.Keys <= m'.Keys
    ensures VisibleCount(m) <= VisibleCount(m')
  {
    assert m'.Keys == m.Keys + (m'.Keys - m.Keys);
    assert |m'.Keys| == |m.Keys| + |m'.Keys - m.Keys|;
  }

  /**
   * A submission that carries the definition's own name gives the same value
   * as creating one from the submission's text.
   */
  lemma SubmissionIsValueOfItsText(p: ChoiceParameter, sub: Submission)
    requires sub.name == Some(p.name)
    ensures CreateValueFromSubmission(p, sub) == CreateValue(p, Some(ValueAsText(sub.value)))
  {
  }

  /**
   * A submitted element holding a comma is stored exactly as the two elements
   * on either side of that comma would be: the stored text cannot tell them apart.
   */
  lemma SubmissionDoesNotEscape(p: ChoiceParameter, name: Option<string>, xs: seq<string>, a: string, b: string, ys: seq<string>)
    ensures CreateValueFromSubmission(p, Submission(name, Array(xs + [a + [Separator] + b] + ys)))
         == CreateValueFromSubmission(p, Submission(name, Array(xs + [a, b] + ys)))
  {
    JoinDoesNotEscape(xs, a, b, ys);
  }

  /**
   * The two creation paths treat null differently: a null string stays null,
   * a null submitted value becomes the text "null".
   */
  lemma NullHandlingDiffers(p: ChoiceParameter)
    ensures CreateValue(p, None).value == None
    ensures CreateValueFromSubmission(p, Submission(Some(p.name), Scalar(None))).value == Some("null")
  {
  }

  /** The default is the value of a string created from the default text, stripped of its description. */
  lemma DefaultIsCreatedValueWithoutDescription(p: ChoiceParameter)
    ensures DefaultParameterValue(p)
         == CreateValue(p, Some(DefaultText(p.getChoices(EmptyContext)))).(description := None)
  {
  }

  /**
   * The default is a key lookup, not the first entry: a map whose first entry
   * is "red" under some other key still defaults to "", and only an Integer 0
   * key is found.
   */
  lemma DefaultIsKeyLookup()
    ensures DefaultText(Some(map[StringKey("k1") := Some("red"), StringKey("k2") := Some("blue")])) == ""
    ensures DefaultText(Some(map[IntegerKey(1) := Some("red"), IntegerKey(0) := Some("blue")])) == "blue"
    ensures DefaultText(Some(map[LongKey(0) := Some("red")])) == ""
    ensures DefaultText(Some(map[StringKey("0") := Some("red")])) == ""
    ensures DefaultText(Some(map[IntegerKey(0) := None])) == ""
  {
  }

  /**
   * A parameter named "env" whose provider returns an empty map defaults to
   * ("env", ""), and the submission ["a", "b"] for it is stored as "a,b".
   */
  lemma EnvScenario(description: Option<string>, choiceType: string)
    ensures var p := ChoiceParameter("env", description, (c: Context) => Some(map[]), choiceType);
            && DefaultParameterValue(p) == ParameterValue(Some("env"), Some(""), None)
            && CreateValueFromSubmission(p, Submission(Some("env"), Array(["a", "b"]))).value == Some("a,b")
            && GetVisibleItemCount(p) == Success(0)
  {
    assert ["a", "b"][1..] == ["b"];
    assert Join(["a", "b"]) == "a" + [Separator] + "b" == "a,b";
  }
}
