# Query compiler, result filter and answer extraction of a Wikidata QA system

This project models, in Dafny, the text logic at the heart of a question
answering system. The system answers WebQuestions questions over Wikidata.

- `questionanswering/wikidata_access.py`:
  - `graph_to_query` turns a semantic graph into a SPARQL query. It fills fixed
    query templates through a chain of textual substitutions.
  - `get_free_variables` lists the variables such a query leaves unbound.
  - `query_wikidata` post-processes the endpoint's binding rows.
  - `map_query_results` maps the question variable's values to canonical
    answer strings, through an entity index.
  - `load_entity_map` builds that index.
- `questionanswering/webquestions_io.py`: `get_answers_from_question` reads the
  gold answers out of a WebQuestions `targetValue` such as
  `(list (description Abduction) (description "New Moon"))`.

Every operation is a pure function over immutable values. Python's exceptions
(a missing key, an index out of range) are the `Failure` side of a `Result`.
The modules follow the program:

- `Wrappers`: `Option` and `Result`.
- `Text`: Python's `startswith`, `replace`, `join`, `str(n)`, ASCII
  `lower`/`title`.
- `Loops`: a counted loop whose body may raise, with the facts every such loop
  satisfies.
- `QueryCompiler`: the templates (character for character), the `Edge` and
  `Graph` records, `graph_to_query` as `Compile`, and `get_free_variables` as
  `FreeVariables`.
- `QueryProperties`:
  - which graphs the compiler rejects;
  - that its SELECT list is `get_free_variables`;
  - that its ORDER BY clause follows the argmax edges.
- `ReplacementTemplate`: the replacement template of `re.sub`, parsed as
  Python 3.12 parses it: escapes, `\g<0>`, and the errors a bad escape or a
  group reference raises, at the positions Python reports.
- `PatternHygiene`: the substitution chain acts word by word on a template. So
  an edge's relation pattern is its template with every placeholder replaced
  by its numbered instance.
- `LabelFacts`: the entity-label pattern of an edge, word by word.
- `PatternFacts`: what that word-by-word form implies:
  - `%restriction%` never survives;
  - a relation id leaves no relation variable;
  - the SELECT variables occur in the pattern;
  - the time variables occur exactly when there is a restriction slot.
- `ResultFilter`: the keep-entity-rows filter and prefix strip of
  `query_wikidata`.
- `AnswerMapping`: `map_query_results` and the inversion in `load_entity_map`.
- `GoldAnswers`: the `re.findall` extraction, written out as the
  backtracking left-to-right scan Python's engine performs, with the
  round trip from answers to a `targetValue` and back.

The proofs also show one consequence of the templates, an argmax edge without
a `type`:

- It uses the union template, which has no `%restriction%` slot.
- Its pattern therefore holds no `?n{i}` (`PatternFacts.UnionHasNoTime`,
  `PatternFacts.TimeVariablesOccur`).
- Yet the edge still adds `DESC(?n{i})` to ORDER BY
  (`QueryProperties.OrderByMatchesArgmax`).
- So such a query orders by an unbound variable.

## Model

| member | source | states |
|---|---|---|
| Text.ReplaceAll | questionanswering/wikidata_access.py:84-115 | `str.replace` as used throughout the substitution chain: with a non-empty pattern that does not occur, the text is unchanged; every character of the result comes from the text or the replacement |
| Text.ReplaceAllByItself | questionanswering/wikidata_access.py:84-115 | replacing a pattern by itself leaves the text unchanged |
| Text.ReplaceAllAppend | questionanswering/wikidata_access.py:121-122 | replacement distributes over a concatenation when no occurrence of the pattern straddles the seam |
| Text.DecimalString | questionanswering/wikidata_access.py:86 | `str(i)` is a non-empty string of digits that reads back as `i` |
| Text.DecimalStringInjective | questionanswering/wikidata_access.py:86-115 | different edge positions get different numerals, so numbered variables of different edges differ |
| Text.Lower | questionanswering/wikidata_access.py:188 | `lower()` keeps the length, turns each upper-case letter into its lower-case partner, leaves no upper-case letter and changes nothing else |
| Text.LowerIdempotent | questionanswering/wikidata_access.py:188 | lower-casing an answer twice is lower-casing it once |
| Text.Title | questionanswering/wikidata_access.py:109 | `title()`: a letter that starts a run of letters is upper-cased, every other letter lower-cased, other characters kept |
| Text.FlattenAppend | questionanswering/wikidata_access.py:15-53 | concatenating template pieces distributes over splitting the piece list |
| Loops.RunStops | questionanswering/wikidata_access.py:77-117 | the edge loop raises when a turn raises that depends only on its edge number |
| Loops.RunFailure | questionanswering/wikidata_access.py:77-117 | a loop that raises does so at its first raising turn, with that turn's exception |
| Loops.RunKeeps | questionanswering/wikidata_access.py:77-117 | a property kept by every turn that goes through holds when the loop ends normally |
| QueryCompiler.RelationPredicates | questionanswering/wikidata_access.py:51-53 | one `e:{id}v` predicate per broader relation, in the listed order |
| QueryCompiler.SubstituteRelation | questionanswering/wikidata_access.py:84 | `re.sub(r"\?r[drv]", rep, ...)` for a replacement without a backslash, which Python uses as it stands: a text without `?` is unchanged |
| QueryCompiler.SubstituteTemplate | questionanswering/wikidata_access.py:84 | `re.sub` with a parsed template: each `?rd`, `?rr`, `?rv` becomes the template expanded for that match, and a text without `?` is unchanged |
| QueryCompiler.SubstituteLiteralTemplate | questionanswering/wikidata_access.py:84 | a replacement without a backslash parses as a template, and substituting the parsed template gives the same text as substituting the replacement literally |
| ReplacementTemplate.Parse | questionanswering/wikidata_access.py:84 | a replacement template raises only at or after one of its backslashes, at a position no later than its end |
| ReplacementTemplate.LiteralTemplate | questionanswering/wikidata_access.py:84 | a template without a backslash parses and stands for itself, whatever the match |
| ReplacementTemplate.EscapedTemplate | questionanswering/wikidata_access.py:84 | round trip: any text with its backslashes doubled parses and stands for that text |
| ReplacementTemplate.NumberedGroupRaises | questionanswering/wikidata_access.py:84 | the replacement `e:P\1` raises at its digit, position 4, as `re.error.pos` reports: the pattern has no group 1 |
| ReplacementTemplate.BracketedGroupRaises | questionanswering/wikidata_access.py:84 | `e:P\g<1>` raises at the group name, position 6 |
| ReplacementTemplate.NamedGroupRaises | questionanswering/wikidata_access.py:84 | `\g<name>` raises at the name, position 3: the pattern has no named group |
| ReplacementTemplate.BadEscapeRaises | questionanswering/wikidata_access.py:84 | an unknown letter escape `\q` raises at its backslash, and a trailing backslash at itself |
| ReplacementTemplate.MissingAngleRaises | questionanswering/wikidata_access.py:84 | `\g` not followed by `<` raises right after the `g` |
| ReplacementTemplate.TrailingBackslashFirst | questionanswering/wikidata_access.py:84 | the tokenizer reads one token ahead: in `\q\` the trailing backslash raises (position 2) before the bad escape `\q` does |
| ReplacementTemplate.EscapesExpand | questionanswering/wikidata_access.py:84 | `\g<0>` and `\g<00>` stand for the match, `\t` for a tab, `\.` for itself with its backslash, `\101` for `A`; `\400` raises at its backslash |
| QueryCompiler.SelectTokens | questionanswering/wikidata_access.py:109 | the list comprehension over `edge['right']` succeeds exactly when every position is in range, picks the tokens in order, and otherwise reports a bad position |
| QueryCompiler.RightLabel | questionanswering/wikidata_access.py:109 | building the label raises exactly when `right` is missing, or when it is non-empty and `tokens` is missing or one of its positions is out of range; the exception names the edge |
| QueryCompiler.EdgeText | questionanswering/wikidata_access.py:105-117 | an edge's text fails exactly when its object has no id and its label cannot be built, with the label's exception |
| QueryCompiler.RelationVariables | questionanswering/wikidata_access.py:83-88 | no relation variable with `kbID`; `?r{i}d`, `?r{i}r`, `?r{i}v` without `type`; else the one variable with the type's first letter |
| QueryCompiler.CompileEdge | questionanswering/wikidata_access.py:77-117 | one loop turn raises exactly when the edge's `"e:" + kbID` is a bad `re.sub` template (reported first, at the position `re.error.pos` gives) or the edge's label cannot be built; the exception names the edge; otherwise the turn appends exactly the edge's text to the query, its free variables to the SELECT list and `?n{i}` to ORDER BY for an argmax edge |
| QueryCompiler.ClosingBraceKept | questionanswering/wikidata_access.py:121-122 | filling in the SELECT list keeps the closing `}` of WHERE at the end |
| QueryCompiler.Finish | questionanswering/wikidata_access.py:119-125 | `?e1` is appended to SELECT exactly when asked for; ` LIMIT 1` ends the query exactly when ORDER BY is non-empty, and then the query ends with ` ORDER BY DESC(..) ... LIMIT 1` |
| QueryCompiler.LimitEnds | questionanswering/wikidata_access.py:123-125 | the appended ORDER BY clause and limit end the query |
| QueryCompiler.Compile | questionanswering/wikidata_access.py:56-128 | a compiled query ends with ` LIMIT 1` exactly when its ORDER BY list is non-empty, and then with the whole ORDER BY clause over that list |
| QueryCompiler.EdgeFreeVariables | questionanswering/wikidata_access.py:133-137 | four variables `?r{i}d ?r{i}r ?r{i}v ?e2{i}` for a bare edge, none with both ids, one relation variable `?r{i}` plus the type letter with `type` and no `kbID`; the count is relation variables plus one without `rightkbID` |
| QueryCompiler.QuestionVariableNotOwnedByEdge | questionanswering/wikidata_access.py:137-139 | `?e1` is not named like an edge's `?r`/`?e2` variable |
| QueryCompiler.EdgeVariablesOwned | questionanswering/wikidata_access.py:133-137 | every free variable of an edge is named `?r...` or `?e2...` |
| QueryCompiler.FreeVariablesFrom | questionanswering/wikidata_access.py:133-137 | the edges' free variables are all edge-named; none when every edge has both ids |
| QueryCompiler.FreeVariables | questionanswering/wikidata_access.py:131-140 | `?e1` is listed exactly when asked for, and then last; an empty graph lists `?e1` or nothing |
| QueryProperties.ArgmaxVariables | questionanswering/wikidata_access.py:93-97 | the ORDER BY variables are exactly `?n{j}` for the argmax edges `j`, at most one per edge |
| QueryProperties.ArgmaxVariablesEmpty | questionanswering/wikidata_access.py:93-97 | the ORDER BY list is empty exactly when no edge carries `argmax` |
| QueryProperties.EdgeTurnEffect | questionanswering/wikidata_access.py:77-117 | whatever was built before, turn `k` raises exactly when edge `k`'s template or label raises, with that edge's exception, and otherwise extends the text by edge `k`'s text and both lists by its share |
| QueryProperties.FirstEdgeFailure | questionanswering/wikidata_access.py:84-109 | the first edge whose relation template or label raises, or none if no edge does |
| QueryProperties.FirstEdgeFailureIs | questionanswering/wikidata_access.py:84-109 | a failing edge with no failing edge before it is the first failure |
| QueryProperties.CompileEdgesFails | questionanswering/wikidata_access.py:77-117 | the edge loop (`CompileEdges`) raises exactly when some edge's template or label raises |
| QueryProperties.CompileEdgesFirstFailure | questionanswering/wikidata_access.py:77-117 | a raising loop raises at the first failing edge, with that edge's exception |
| QueryProperties.CompileEdgesLists | questionanswering/wikidata_access.py:72-117 | a loop (`CompileEdges`) that completes has appended exactly the edges' texts in edge order, and its lists are the starting lists followed by the edges' free variables and argmax variables |
| QueryProperties.ListsKept | questionanswering/wikidata_access.py:77-117 | each turn that goes through keeps the loop invariant on the text and both lists |
| QueryProperties.FreeVariablesStep | questionanswering/wikidata_access.py:133-137 | an edge's own free variables come before those of the later edges |
| QueryProperties.ArgmaxVariablesStep | questionanswering/wikidata_access.py:93-97 | an edge's own ORDER BY variable comes before those of the later edges |
| QueryProperties.CompileFails | questionanswering/wikidata_access.py:56-128 | `graph_to_query` raises exactly when some edge's relation template or label raises, and then with the first such edge's exception |
| QueryProperties.SelectListIsFreeVariables | questionanswering/wikidata_access.py:72-140 | the SELECT list of `graph_to_query(g, f)` is `get_free_variables(g, f)`, element for element |
| QueryProperties.OrderByMatchesArgmax | questionanswering/wikidata_access.py:93-125 | ORDER BY lists `?n{j}` for the argmax edges in edge order; ` LIMIT 1` ends the query exactly when some edge has `argmax`, preceded by one `DESC(?n{j})` per such edge |
| QueryProperties.EmptyGraph | questionanswering/wikidata_access.py:72-128 | a graph without edges compiles to the header with SELECT `?e1` or nothing and no ORDER BY |
| QueryProperties.CompiledText | questionanswering/wikidata_access.py:72-125 | the text of a compiled query is the header, the edges' texts in order and `}`, with `%queryvariables%` replaced by `get_free_variables` joined by spaces, then ` ORDER BY DESC(?n{j}) ... LIMIT 1` exactly when some edge has `argmax` |
| QueryProperties.GroupReferenceInRelationId | questionanswering/wikidata_access.py:84 | a graph whose first edge has `kbID` `P\1` makes `graph_to_query` raise at that edge, at position 4 of `e:P\1`, the digit |
| PatternHygiene.AbsentLead | questionanswering/wikidata_access.py:84-115 | a pattern whose first character does not occur in a text does not occur in it |
| PatternHygiene.InertTextAll | questionanswering/wikidata_access.py:84-115 | template text without a placeholder character passes through the substitution chain unchanged |
| PatternHygiene.SubstituteRelationAppend | questionanswering/wikidata_access.py:84 | the `?r[drv]` substitution distributes over a concatenation whose second part starts with white space |
| PatternHygiene.RewrittenFlatten | questionanswering/wikidata_access.py:84-115 | one substitution over white-space-separated words is that substitution on each word |
| PatternHygiene.RewriteAllFlatten | questionanswering/wikidata_access.py:84-115 | the whole chain over separated words is the chain on each word |
| PatternHygiene.EdgeRewritesInGroups | questionanswering/wikidata_access.py:83-115 | an edge's substitutions, in source order, are the relation, hop-up, restriction, name, object and blank-node groups |
| PatternHygiene.HopUpPathPlain | questionanswering/wikidata_access.py:53 | the hop-up relation path holds no placeholder character |
| PatternHygiene.EdgeTexts | questionanswering/wikidata_access.py:24-38 | every template is the concatenation of its placeholder slots and literal words, each slot well formed |
| PatternHygiene.UnionPiecesCut | questionanswering/wikidata_access.py:31-38 | the union template is the direct, reverse and v-structure blocks in that order |
| PatternHygiene.ExpandWords | questionanswering/wikidata_access.py:84-115 | the chain turns each slot into its numbered instance |
| PatternHygiene.RelationPatternWords | questionanswering/wikidata_access.py:78-115 | an edge's relation pattern (`RelationPattern`) is its template with `?r[drv]` replaced by `e:kbID` or `?r{i}` plus the letter, the object by `e:rightkbID` or `?e2{i}` (behind `[ _:s{i} [ path` with `hopUp`), `?p`/`?m` by `?p{i}`/`?m{i}`, and the restriction by `?m{i} ?a{i} [base:time ?n{i}].` with `argmax` and by nothing without |
| LabelFacts.LabelPatternWords | questionanswering/wikidata_access.py:110-111 | the label pattern of edge `i` (`LabelPattern`) is the label template of lines 40-45 with `?e2` numbered `?e2{i}` and the label put between the quotes, every other word kept |
| LabelFacts.QuotedSlot | questionanswering/wikidata_access.py:111 | the label goes into the quoted slot verbatim, whatever characters it holds |
| PatternFacts.PatternClean | questionanswering/wikidata_access.py:78-115 | the pattern holds no `%` and no variable starting with a letter that no slot of its template produces |
| PatternFacts.RestrictionGone | questionanswering/wikidata_access.py:94-99 | `%restriction%` never survives: the pattern holds no `%` at all |
| PatternFacts.RelationIdWritten | questionanswering/wikidata_access.py:83-84 | with `kbID` every `?rd`, `?rr` and `?rv` has been replaced: no `?r` is left |
| PatternFacts.UnionHasNoTime | questionanswering/wikidata_access.py:31-38 | the union template of an untyped edge has no restriction slot, so its pattern holds no `?n` and no `?a` |
| PatternFacts.RelationVariablesOccur | questionanswering/wikidata_access.py:83-88 | each relation variable the edge lists occurs in its pattern |
| PatternFacts.ObjectVariableOccurs | questionanswering/wikidata_access.py:105-108 | without `rightkbID` the object variable `?e2{i}` occurs in the pattern |
| PatternFacts.FreeVariablesBound | questionanswering/wikidata_access.py:83-112 | every SELECT variable of an edge occurs in the edge's pattern |
| PatternFacts.TimeVariablesOccur | questionanswering/wikidata_access.py:93-97 | `?n{i}` and `?a{i}` occur in the pattern exactly when the edge has `argmax` and a `type` |
| ResultFilter.KeepEntityRows | questionanswering/wikidata_access.py:157 | the kept rows are no more than the rows, and every kept row is an entity row |
| ResultFilter.StripValue | questionanswering/wikidata_access.py:158 | `.replace(prefix, "")` leaves a value without the entity prefix unchanged, and never lengthens a value or adds a character it lacks |
| Text.ReplaceAllNoLonger | questionanswering/wikidata_access.py:158 | replacing a pattern by a text no longer than it never lengthens the text |
| ResultFilter.StripRow | questionanswering/wikidata_access.py:158 | stripping keeps a row's variables |
| ResultFilter.StripRows | questionanswering/wikidata_access.py:158 | stripping keeps the number of rows and each row's variables |
| ResultFilter.QueryResults | questionanswering/wikidata_access.py:154-162 | there are never more results than binding rows |
| ResultFilter.KeepEntityRowsAppend | questionanswering/wikidata_access.py:157 | the filter distributes over concatenation, so kept rows keep their order |
| ResultFilter.KeepEntityRowsCount | questionanswering/wikidata_access.py:157 | a row is kept as often as it occurs when every value is an entity URI, and never otherwise: one bad value drops the whole row |
| ResultFilter.KeepEntityRowsUnchanged | questionanswering/wikidata_access.py:157 | the filter changes nothing exactly when every row is an entity row |
| ResultFilter.QueryResultsIsStrippedFilter | questionanswering/wikidata_access.py:154-162 | the empty-bindings branch returns what the general branch would |
| ResultFilter.QueryResultsAppend | questionanswering/wikidata_access.py:154-159 | the post-processing distributes over concatenation |
| ResultFilter.StripEntityUri | questionanswering/wikidata_access.py:158 | stripping an entity URI gives back an id that does not contain the prefix |
| ResultFilter.UriRowRoundTrip | questionanswering/wikidata_access.py:157-158 | a row of entity URIs passes the filter and strips back to its ids |
| ResultFilter.QueryResultsOne | questionanswering/wikidata_access.py:157-158 | the round trip for one row |
| ResultFilter.QueryResultsRoundTrip | questionanswering/wikidata_access.py:154-159 | rows of entity URIs come back as their ids, all of them, in order |
| AnswerMapping.QuestionValues | questionanswering/wikidata_access.py:187 | `[r[v] for r in rows]` succeeds exactly when every row has `v`, gives the values in row order, and otherwise raises at the first row without it |
| AnswerMapping.Canonical | questionanswering/wikidata_access.py:188 | no canonical answer holds an upper-case letter |
| AnswerMapping.MapQueryResults | questionanswering/wikidata_access.py:177-189 | fails exactly when some row lacks the question variable, with the first such row; every answer is lower-case |
| AnswerMapping.CanonicalAppend | questionanswering/wikidata_access.py:188 | answers of consecutive rows are consecutive in the result |
| AnswerMapping.CanonicalOne | questionanswering/wikidata_access.py:188 | an indexed id yields all its labels lower-cased in order; an unknown id yields itself lower-cased |
| AnswerMapping.CanonicalLength | questionanswering/wikidata_access.py:188 | the number of answers is the sum of the label counts of indexed ids plus one per unknown id |
| AnswerMapping.CanonicalMembers | questionanswering/wikidata_access.py:188 | a string is an answer exactly when it is a lower-cased label of some row's id, or some unknown id lower-cased |
| AnswerMapping.MapQueryResultsExample | questionanswering/wikidata_access.py:184-185 | the documented example gives `['barack obama', 'q235234']` |
| AnswerMapping.QuestionValuesExample | questionanswering/wikidata_access.py:184-187 | the documented rows give the ids `Q76`, `Q235234` |
| AnswerMapping.CanonicalExample | questionanswering/wikidata_access.py:184-188 | the documented ids map to `barack obama` and `q235234` |
| AnswerMapping.LoadIndex | questionanswering/wikidata_access.py:165-172 | a line with fewer than two fields makes the loader return the empty map |
| AnswerMapping.Invert | questionanswering/wikidata_access.py:169 | an id is indexed exactly when some line names it, and a label is listed for it exactly when some line pairs the two |
| AnswerMapping.InvertLast | questionanswering/wikidata_access.py:169 | adding the last line's pair to the index of the earlier lines keeps both of those equivalences |
| AnswerMapping.AnswerOfListed | questionanswering/wikidata_access.py:188 | the answers for one id do not depend on the order in which the index lists its labels |
| AnswerMapping.CanonicalFromLoadedIndex | questionanswering/wikidata_access.py:169-188 | against any listing of a loaded index, the answers are exactly the lower-cased labels of indexed ids and the lower-cased unknown ids |
| GoldAnswers.GroupEnd | questionanswering/webquestions_io.py:15 | the lazy group stops at a position where `"?\)` matches |
| GoldAnswers.GroupEndFirst | questionanswering/webquestions_io.py:15 | the group stops at the first such position and never crosses a line break, and fails only when a line break precedes every such position |
| GoldAnswers.MatchAt | questionanswering/webquestions_io.py:15 | a match at `p` exists exactly when `(description ` starts there and the group can close; it ends after the opener |
| GoldAnswers.Closed | questionanswering/webquestions_io.py:15 | a match ends after the position where its group stops |
| GoldAnswers.MatchAtClean | questionanswering/webquestions_io.py:15 | a captured answer holds no `)` and no line break |
| GoldAnswers.MatchAtQuoted | questionanswering/webquestions_io.py:15 | a `"` right after `(description ` is never part of the answer |
| GoldAnswers.QuoteLeftOnlyWhenUnclosed | questionanswering/webquestions_io.py:15 | with a quote after the opener, the group after the quote closes whenever the group with it does |
| GoldAnswers.MatchAtCloses | questionanswering/webquestions_io.py:15 | a match ends with `)`; a `"` directly before that `)` is never part of the answer, which otherwise ends right before the `)` |
| GoldAnswers.ClosedEnd | questionanswering/webquestions_io.py:15 | the same, for a group stopped at the first place `"?\)` matches |
| GoldAnswers.MatchGroup | questionanswering/webquestions_io.py:15 | a match's group starts right after the opener, or after its quote when the group past the quote can close, and stops at the first place `"?\)` matches |
| GoldAnswers.MatcherOf | questionanswering/webquestions_io.py:15 | each match found in a text ends after it starts and within the text |
| GoldAnswers.FindAll | questionanswering/webquestions_io.py:15 | no answer `re.findall` extracts contains `)` or a line break |
| GoldAnswers.ScanClean | questionanswering/webquestions_io.py:15 | the same for the left-to-right scan from any position |
| GoldAnswers.OpenerCountMonotone | questionanswering/webquestions_io.py:15 | a later start sees no more `(description ` occurrences |
| GoldAnswers.AnswersBoundedByOpeners | questionanswering/webquestions_io.py:15 | there are never more answers than occurrences of `(description ` |
| GoldAnswers.NoOpenerNoAnswers | questionanswering/webquestions_io.py:15 | a text without `(description ` has no answers |
| GoldAnswers.Texts | questionanswering/webquestions_io.py:15 | the answers' texts, one per answer, in order |
| GoldAnswers.ScanRun | questionanswering/webquestions_io.py:15 | any matcher that reads each written description reads a whole run of them, in order |
| GoldAnswers.RunRead | questionanswering/webquestions_io.py:15 | a run of descriptions in a text yields its answers, and the search goes on after it |
| GoldAnswers.ListHeadSkipped | questionanswering/webquestions_io.py:15 | nothing is found in the `(list` head |
| GoldAnswers.TargetValueRead | questionanswering/webquestions_io.py:15 | a text laid out as `(list`, descriptions and `)` yields exactly the described answers |
| GoldAnswers.ReadTargetValue | questionanswering/webquestions_io.py:10-15 | round trip: a `targetValue` written from answers, bare or quoted, without `)` or line breaks and bare ones not quote-delimited, yields exactly those answers in order |
| GoldAnswers.AnswersFromQuestion | questionanswering/webquestions_io.py:15 | raises exactly when `targetValue` is missing; otherwise no answer holds `)` or a line break |
| GoldAnswers.QuotedAnswerExample | questionanswering/webquestions_io.py:10-11 | the quoted docstring example yields `['Padmé Amidala']` |
| GoldAnswers.MixedAnswersExample | questionanswering/webquestions_io.py:12-13 | the mixed docstring example yields `['Abduction', 'Eclipse', "Valentine's Day", 'New Moon']` in that order |

## Left out

- The SPARQL endpoint is not modelled. That covers its setup, the network call, the timeout, and the catch-all exception path that returns `[]`. The binding rows are a parameter of `ResultFilter.QueryResults`.
- Each binding is a map from variable to its `value` string. The other fields of a binding are dropped, and so is a binding without `value`.
- Logging and the `link_entity` stub are not modelled.
- The doctests of `graph_to_query` are not modelled. They count the rows a live knowledge base returns.
- The meaning of the emitted SPARQL is not modelled. Only the query text and its SELECT and ORDER BY lists are.
- `load_entity_map` takes the lines already split into fields. Reading the file, `strip` and `split("\t")` are left out. So is the module-level `entity_map`, which becomes a parameter: the index of `map_query_results`.
- `nltk.Index` lists labels in the iteration order of a Python set, which Dafny cannot know.
  - `AnswerMapping.Invert` gives each id a set of labels.
  - `AnswerMapping.MapQueryResults` takes any list order.
  - `AnswerMapping.CanonicalFromLoadedIndex` shows that the answers do not depend on that order.
- Text.Lower: only ASCII letters are mapped. Python's Unicode case mapping is not modelled.
- Text.Title: only ASCII letters are cased. Python's Unicode `title()` is not modelled.
- A `type` value other than the three template keys is left out. The source raises a `KeyError` there. `Shape` has just the three values.
- `hopUp` and `argmax` are recorded only as present or absent. The source only tests `in edge`.
- `left` and `entities` are carried but not read, as in the source.
- PatternHygiene.ExpandWords: proved only for edges whose `kbID` and `rightkbID` hold no `?`, `%` or `_` and whose `kbID` holds no backslash (`IdsPlain`). An id holding one of `?`, `%` or `_` could be rewritten again by a later substitution of the chain. A backslash in `kbID` makes the replacement a template with escapes, which this word-by-word form does not describe.
- PatternHygiene.RelationPatternWords: proved only under `IdsPlain`, for the reasons given for `PatternHygiene.ExpandWords`.
- PatternFacts.PatternClean: proved only under `IdsPlain`, for the reasons given for `PatternHygiene.ExpandWords`.
- PatternFacts.RestrictionGone: proved only under `IdsPlain`, for the reasons given for `PatternHygiene.ExpandWords`.
- PatternFacts.RelationIdWritten: proved only under `IdsPlain`, for the reasons given for `PatternHygiene.ExpandWords`.
- PatternFacts.UnionHasNoTime: proved only under `IdsPlain`, for the reasons given for `PatternHygiene.ExpandWords`.
- PatternFacts.RelationVariablesOccur: proved only under `IdsPlain`, for the reasons given for `PatternHygiene.ExpandWords`.
- PatternFacts.ObjectVariableOccurs: proved only under `IdsPlain`, for the reasons given for `PatternHygiene.ExpandWords`.
- PatternFacts.FreeVariablesBound: proved only under `IdsPlain`, for the reasons given for `PatternHygiene.ExpandWords`.
- PatternFacts.TimeVariablesOccur: proved only under `IdsPlain`, for the reasons given for `PatternHygiene.ExpandWords`.
- ResultFilter.UriRowRoundTrip: proved for ids that do not themselves contain the entity prefix (`PlainIds`). `.replace` removes every occurrence of the prefix, not only the leading one.
- ResultFilter.QueryResultsOne: proved for ids without the entity prefix (`PlainIds`), for the same reason.
- ResultFilter.QueryResultsRoundTrip: proved for ids (`PlainIds`) that do not themselves contain the entity prefix. `.replace` removes every occurrence of the prefix, not only the leading one.
- GoldAnswers.ReadTargetValue: proved for answers with no `)` or line break, where a bare answer also neither starts nor ends with `"` (`Readable`). Other answers are cut or lose a quote, as in the source.
- GoldAnswers.TargetValueRead: proved only for `Readable` answers, as `GoldAnswers.ReadTargetValue` is.
- GoldAnswers.RunRead: proved only for `Readable` answers, as `GoldAnswers.ReadTargetValue` is.
- GoldAnswers.ScanRun: proved only for `Readable` answers, as `GoldAnswers.ReadTargetValue` is.
- GoldAnswers.AnswersFromQuestion: a missing `targetValue` is a `Failure`. The source passes `None` to `re.findall`, which raises `TypeError`.
- QueryCompiler.SubstituteRelation: used only for a replacement without a backslash. For one with a backslash the model parses the template (`ReplacementTemplate`) as `re.sub` does.
- ReplacementTemplate.Parse: only ASCII-digit names equal to 0 are accepted inside `\g<...>`. Python versions before 3.12 also accepted a sign, white space or non-ASCII digits in a group number; that leniency is not modelled.
- ReplacementTemplate.TemplateError stands for every exception a bad template raises. `re.error` and the `IndexError` of an unknown group name are not told apart. The `IndexError` carries no position; the model reports the start of the name, where `re.error` would.
- Python 3.12 semantics are modelled: dict insertion order (the `d`, `r`, `v` order at `wikidata_access.py:88` and `:135`) and the `re` template parser of that version (an unknown letter escape raises, error positions as 3.12 reports them).
- The text `Rewritten` gives for a relation id whose template raises is never used: `CompileEdge` reports the failure before building the edge's text.
- Python 3 scoping is assumed. The comprehension at `wikidata_access.py:109` reuses the name `i`; under Python 2 it would rebind the edge index used at lines 110-115. `QueryCompiler.EdgeText` keeps the edge index, as Python 3 does.
- `re.findall` is modelled only for this one regular expression, as an explicit scan.
- `questionanswering/test_model.py` is not part of this model. It is a command-line driver.
