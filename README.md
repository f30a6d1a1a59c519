# Active Choices: value resolution of the abstract Uno Choice parameter

This project models, in Dafny, the value resolution that every Active Choices
parameter inherits from `AbstractUnoChoiceParameter`. It proves properties of
that model. The model covers four operations:

- **`createValue(String)`** wraps a raw string into a string parameter value.
  The string is kept as it is, null included. The name and description come
  from the definition.
- **`createValue(StaplerRequest, JSONObject)`** turns a submitted form into a
  value. A JSON array `value` is joined with `","` in submitted order, with no
  quoting. Any other `value` goes through `String.valueOf`, so a null or
  missing one becomes the text `"null"`. The name comes from the submission
  and the description from the definition.
- **`getDefaultParameterValue`** asks the concrete parameter for its choices
  in the empty context. It takes the entry under the Integer key `0` (a key
  lookup, not the first entry). It maps a null or missing entry to `""`, so
  the default is never null, and the default has no description.
- **`getVisibleItemCount`** is the smaller of the number of choices and
  `DEFAULT_MAX_VISIBLE_ITEM_COUNT` (10).

The abstract `getChoices` is a field of type `Context -> Option<Choices>` of
the `ChoiceParameter` datatype; `None` is a null map. The abstract
`getChoiceType` is a field holding the reported text. Java `null` is
`Option.None` in every nullable position; the definition's own name is a
plain `string`, so it is never null in the model. A choice map is a Dafny `map` from `Key`
(`IntegerKey`, `LongKey`, `StringKey`) to the text of the entry, with `None`
for a null entry. Only `IntegerKey(0)` is what `choices.get(0)` finds.

Files:

- `wrappers.dfy`: `Option` and `Result`.
- `comma_text.dfy`: the comma join and a reference splitter, with the
  round trips in both directions.
- `uno_choice_parameter.dfy`: the parameter itself.

Three behaviours of the code are worth stating plainly:

- The code joins with plain commas and does not quote an element that contains one (`JoinDoesNotEscape`, `JoinNotInjective`, `SubmissionDoesNotEscape`).
- The default is the entry under the Integer key 0, not the first-inserted entry (`DefaultIsKeyLookup`, `DefaultIgnoresOtherKeys`).
- `getVisibleItemCount` throws a `NullPointerException` when the choice map is null (`GetVisibleItemCount`).

## Model

| member | source | states |
|---|---|---|
| `UnoChoice.CreateValue` | src/main/java/org/biouno/unochoice/AbstractUnoChoiceParameter.java:95-103 | the value is exactly the given string, null or empty included, with no validation; name and description are the definition's |
| `UnoChoice.ValueAsText` | src/main/java/org/biouno/unochoice/AbstractUnoChoiceParameter.java:115-123 | a null/missing scalar gives "null", any other scalar its own text; an array gives the comma join of its elements (so "" when empty, the element itself when single); a non-empty comma-free array splits back into its elements in order |
| `UnoChoice.SubmissionDoesNotEscape` | src/main/java/org/biouno/unochoice/AbstractUnoChoiceParameter.java:119-120 | a submitted element "a,b" is stored exactly as the two elements "a" and "b" in its place would be |
| `UnoChoice.CreateValueFromSubmission` | src/main/java/org/biouno/unochoice/AbstractUnoChoiceParameter.java:110-131 | name from the submission, value the submitted value's text (never null), description from the definition |
| `UnoChoice.SubmissionIsValueOfItsText` | src/main/java/org/biouno/unochoice/AbstractUnoChoiceParameter.java:125-129 | when the submission carries the definition's name, the result equals the string-created value of the submission's text |
| `UnoChoice.NullHandlingDiffers` | src/main/java/org/biouno/unochoice/AbstractUnoChoiceParameter.java:101-122 | a null raw string stays null, while a null submitted value becomes the text "null" |
| `CommaText.Join` | src/main/java/org/biouno/unochoice/AbstractUnoChoiceParameter.java:120 | no elements give "", one element gives itself, and the text always starts with the first element |
| `CommaText.Split` | src/main/java/org/biouno/unochoice/AbstractUnoChoiceParameter.java:120 | the reference splitter for the join: at least one piece, and no piece contains a comma |
| `CommaText.SplitJoin` | src/main/java/org/biouno/unochoice/AbstractUnoChoiceParameter.java:120 | splitting the joined text at commas gives back a non-empty comma-free sequence, in order |
| `CommaText.JoinSplit` | src/main/java/org/biouno/unochoice/AbstractUnoChoiceParameter.java:120 | joining the pieces of any text rebuilds that text |
| `CommaText.JoinAppend` | src/main/java/org/biouno/unochoice/AbstractUnoChoiceParameter.java:120 | joining is order-preserving: the join of xs + ys is join(xs), a comma, join(ys) |
| `CommaText.JoinDoesNotEscape` | src/main/java/org/biouno/unochoice/AbstractUnoChoiceParameter.java:120 | an element "a,b" joins to the same text as the two elements "a" and "b" in its place |
| `CommaText.JoinNotInjective` | src/main/java/org/biouno/unochoice/AbstractUnoChoiceParameter.java:120 | ["a,b"] and ["a","b"] join alike, and so do [] and [""] |
| `UnoChoice.DefaultText` | src/main/java/org/biouno/unochoice/AbstractUnoChoiceParameter.java:142-148 | "" for a null map, for a map without the Integer key 0, and for a null entry there; otherwise the text of the entry under key 0 |
| `UnoChoice.DefaultParameterValue` | src/main/java/org/biouno/unochoice/AbstractUnoChoiceParameter.java:138-151 | name from the definition, no description, a non-null value: the default text of the provider's answer for the empty context |
| `UnoChoice.DefaultIgnoresOtherKeys` | src/main/java/org/biouno/unochoice/AbstractUnoChoiceParameter.java:144-146 | adding or changing an entry under any key other than Integer 0 leaves the default unchanged |
| `UnoChoice.DefaultIsKeyLookup` | src/main/java/org/biouno/unochoice/AbstractUnoChoiceParameter.java:145 | a first entry under another key is not chosen; the Long 0 and String "0" keys are not found; a null entry under 0 gives "" |
| `UnoChoice.DefaultIsCreatedValueWithoutDescription` | src/main/java/org/biouno/unochoice/AbstractUnoChoiceParameter.java:147-149 | the default equals the string-created value of the default text with the description removed |
| `UnoChoice.VisibleCount` | src/main/java/org/biouno/unochoice/AbstractUnoChoiceParameter.java:164-167 | the count is at most 10 and at most the number of choices, and equals one of them (the minimum) |
| `UnoChoice.GetVisibleItemCount` | src/main/java/org/biouno/unochoice/AbstractUnoChoiceParameter.java:160-168 | throws exactly when the provider's map for the empty context is null; otherwise the capped count of that map |
| `UnoChoice.VisibleCountMonotone` | src/main/java/org/biouno/unochoice/AbstractUnoChoiceParameter.java:164-167 | more choices never give a smaller visible count |
| `UnoChoice.ProviderConsultedAtEmptyContextOnly` | src/main/java/org/biouno/unochoice/AbstractUnoChoiceParameter.java:143-164 | the default and the count depend on the provider only through its answer for the empty context |
| `UnoChoice.EnvScenario` | src/main/java/org/biouno/unochoice/AbstractUnoChoiceParameter.java:110-168 | for "env" with an empty choice map: default ("env", ""), submission ["a","b"] stored as "a,b", visible count 0 |
| `UnoChoice.TypeCodesDistinct` | src/main/java/org/biouno/unochoice/AbstractUnoChoiceParameter.java:64-74 | the type codes name their types unambiguously, within and across the two families |

## Left out

- Logging: the `LOGGER` calls have no effect on any result.
- The `request.bindJSON` data binding is host code. The model builds the value directly from the name and text it is given.
- Escaping inside JSON array elements: `JSONArray.join(",", true)` renders each element as JSON text and strips its outer quotes. An element's text in `JsonValue.Array` is that rendered text; the escaping of quotes or backslashes by the JSON library is not modelled.
- The set of JSON values that `JSONUtils.isArray` recognises is a datatype tag here. `String.valueOf` of a non-array value is given as its text.
- Jenkins inheritance and serialisation: `SimpleParameterDefinition`, `serialVersionUID` and the internals of `StringParameterValue` are host code.
- A `getChoices` that throws is not modelled: `Provider` is a total function. In the code such an exception escapes both `getDefaultParameterValue` and `getVisibleItemCount`, as neither catches it.
- An entry whose `toString()` throws or returns null is not modelled: an entry is given by its text. In the code the first case throws out of `getDefaultParameterValue`, and the second makes the default's value null.
- DefaultParameterValue: promises a non-null value and no failure only within these abstractions (a total provider, entries given by their text).
- Concrete `getChoices` strategies and `getChoiceType` are implemented elsewhere. They are fields of `ChoiceParameter`. The type constants are enumerated and proved distinct, but nothing depends on them. `choiceType` stays a free string, because concrete parameters report codes from either family.
- Keys of other classes than Integer, Long and String are not modelled, and neither are maps with non-standard lookup (such as a sorted map with its own comparator).
- `Map.size()` caps at Java's largest `int`; the model uses the exact size, which gives the same visible count.
- ProviderConsultedAtEmptyContextOnly: does not count provider calls, because the model is pure. It shows that each operation uses exactly one provider answer, the one for the empty context. It does not state "called once" as an effect.
