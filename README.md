# Spell log-template mining, modelled in Dafny

This project models the core of a log-analysis repository: the **Spell**
log-template miner in its three forms, and two small helpers from elsewhere in
the repository.

- **Online store** (`src/pyspell/spell_stream.py`):
  - An `LCSMap` keeps an append-only list of `LCSObject`s. Each object is a
    template whose variable positions hold the string token `'*'`.
  - A new line is matched against every object by a greedy forward scan
    (`getlcs`, `match`). It is then merged into the best object (`insert`) or
    starts a new object.
  - `param` recovers the tokens that stand in for each wildcard.
  - Helpers modelled: `get_span`, `get_ioc_param`, the masking splice of
    `preprocess`, and `make_log_format_regex`.
- **Batch parser** (`src/pyspell/spell.py`):
  - The dynamic-programming `lcs` with its traceback.
  - The three matchers: `prefix_tree_match`, `simple_loop_match` and
    `lcs_match`.
  - `get_template` and `get_parameters`.
  - The reference-counted prefix tree with `add_seq_to_prefix_tree` and
    `remove_seq_from_prefix_tree`.
  - The step `parse` takes for each line, as `BatchStore.BatchParser.ProcessLine`.
- **Older batch parser** (`src/spell.py`): the same algorithm, with a misplaced
  index in the `lcs` traceback and a removal that reads an attribute `Node`
  does not have. Both are modelled as written and set against the corrected
  code.
- **Invariant mining** (`src/anomaly/invariants_miner.py`): the itemset helpers
  `_join_set`, `_check_valid_candidates` and `_prune`.
- **URL classifier** (`src/ml/url_classifier/util.py`): the character-vocabulary
  builder `extract_text_model` and `merge_dict`.

How the source is represented:
- Tokens are strings, and the wildcard is the ordinary string `"*"` (`Tokens.Wildcard`).
- `re.split(r'\s+', s.strip())`, `str.split()`, `str.strip()` and `' '.join`
  are defined over `string` in module `Tokens`.
- Matches of the user's regular expressions are inputs, given as spans.
- Code that changes state step by step is modelled imperatively:
  - `LcsObject`, `LcsMap` and `BatchParser` are classes.
  - The LCS table is an `array2`.
  - The table fill, the walks and the list-building loops are methods, each proved equal to a recursive function that states what it computes.
  - Four loops are kept as functions:
    - `simple_loop_match`, an `all()` over the clusters;
    - `prefix_tree_match`, a recursion;
    - the early-return loop of `_check_valid_candidates`;
    - the walk back through the LCS table in `src/spell.py` (`OldSpell.OldTraceback`), which the model has only to exhibit its defect.
- The properties the source relies on are lemmas about those functions.
- Python exceptions are the `Err` side of `Wrappers.Result`.

Modules:
- `Wrappers`: `Option`, `Result`, Python exceptions.
- `Tokens`: whitespace splitting and joining.
- `SpellStream`: `LCSObject`, `LCSMap`.
- `StreamExample`: the five-line run of `tests/test_parsing.py` through `LCSMap`.
- `StreamPrep`: `get_span`, `get_ioc_param`, `preprocess`.
- `LogFormat`: `make_log_format_regex`.
- `BatchLcs`: `lcs`.
- `BatchMatch`: `simple_loop_match`, `lcs_match`.
- `BatchTemplate`: `get_template`, `get_parameters`.
- `BatchTree`: `Node`, `prefix_tree_match`, the tree walks.
- `BatchStore`: the per-line step of `parse`.
- `OldSpell`: the older parser's differences.
- `InvariantsMiner`.
- `UrlUtil`.

## Model

| member | source | states |
|---|---|---|
| Tokens.TokenizeIsTokens | src/pyspell/spell_stream.py:239 | `re.split(r'\s+', entry.strip())` yields `[""]` exactly for a blank entry, and non-empty whitespace-free words otherwise |
| Tokens.SplitJoin | src/pyspell/spell_stream.py:104-105 | splitting the space-joined words on whitespace gives the words back |
| Tokens.ResplitWords | src/pyspell/spell_stream.py:99-100 | stripping and re-splitting the joined words gives them back, and `[""]` when there are none |
| Tokens.LStripFacts | src/pyspell/spell_stream.py:239 | `lstrip` removes exactly the leading whitespace |
| Tokens.RStripFacts | src/pyspell/spell_stream.py:239 | `rstrip` removes exactly the trailing whitespace |
| Tokens.LiteralsNoWildcard | src/pyspell/spell.py:172 | `[w for w in seq if w != '*']` holds no `'*'` |
| SpellStream.FindFromFirst | src/pyspell/spell_stream.py:65-69 | the inner scan finds the first `j > lastmatch` whose token equals the template token, and finding none means no such `j` exists |
| SpellStream.AlignSound | src/pyspell/spell_stream.py:59-71 | every match `getlcs` counts pairs equal tokens at a non-wildcard template position; both indices strictly increase |
| SpellStream.AlignBounds | src/pyspell/spell_stream.py:59-71 | the matches from a position on are at most the free template positions and at most the input tokens left |
| SpellStream.GreedyCountBounds | src/pyspell/spell_stream.py:55-71 | the `getlcs` count is at most the number of non-wildcard template positions and at most `len(seq)` |
| SpellStream.LcsObject.GetLcs | src/pyspell/spell_stream.py:55-71 | the loop returns the greedy match count of the template against `seq` |
| SpellStream.LcsObject.IsPos | src/pyspell/spell_stream.py:176-181 | `_ispos(idx)` is true exactly when `idx` is in `_pos` |
| SpellStream.LcsObject.GetPos | src/pyspell/spell_stream.py:217-223 | `_getpos` returns the wildcard positions of the template |
| SpellStream.WildPositionsExact | src/pyspell/spell_stream.py:217-223 | the positions listed are exactly those holding `'*'`, in strictly ascending order |
| SpellStream.LcsObject.constructor | src/pyspell/spell_stream.py:43-53 | a new object holds the input as its template, the one line id, and no wildcard positions |
| SpellStream.LcsObject.LcsSeq | src/pyspell/spell_stream.py:104-105 | re-tokenising the joined template gives the template back |
| SpellStream.LcsObject.Length | src/pyspell/spell_stream.py:114-115 | `__len__` is the number of tokens `lcsseq()` re-tokenises into |
| SpellStream.LcsSeqRoundTrip | src/pyspell/spell_stream.py:104-105 | the same round trip, for any tokenizer output |
| SpellStream.LcsObject.MergeTemp | src/pyspell/spell_stream.py:78-98 | the merge loop builds `temp` as each appended token followed by a space |
| SpellStream.LcsObject.Insert | src/pyspell/spell_stream.py:73-102 | `insert` appends the line id, replaces the template by its merge with the input, and sets `_pos` to the wildcard positions of the new template |
| SpellStream.MergeOutNoDoubleWildcard | src/pyspell/spell_stream.py:80-97 | when every template position outside `_pos` holds a token other than `'*'`, the merge never emits two adjacent `'*'`; once `placeholder` is set it does not start with `'*'` |
| SpellStream.MergeOutKept | src/pyspell/spell_stream.py:89-94 | apart from wildcards, the merge emits exactly the literals it keeps |
| SpellStream.KeptSubseq | src/pyspell/spell_stream.py:89-94 | the kept literals are a subsequence of the input and of the old template |
| SpellStream.KeptPastEnd | src/pyspell/spell_stream.py:89 | once the input is exhausted, the merge keeps no further literal |
| SpellStream.MergeOutPastEnd | src/pyspell/spell_stream.py:81-97 | once the input is exhausted, each literal's scan range is empty and it is dropped without a `'*'`; the rest of the merge is one `'*'` if a wildcard position remains and `placeholder` is unset, and nothing otherwise |
| SpellStream.MergeOutTokens | src/pyspell/spell_stream.py:81-97 | every emitted token is `'*'` or a token of both the template and the input |
| SpellStream.MergeOutNonEmpty | src/pyspell/spell_stream.py:81-97 | a non-empty template merged with a non-empty input emits at least one token |
| SpellStream.MergedIsOut | src/pyspell/spell_stream.py:99-100 | on tokenizer output, the re-split template is exactly the emitted token list, and is again tokenizer output |
| SpellStream.MergedShape | src/pyspell/spell_stream.py:73-102 | the new template's literals are a subsequence of both the input and the old template; no two `'*'` are adjacent when every template position outside `_pos` holds a token other than `'*'` |
| SpellStream.BlankMerge | src/pyspell/spell_stream.py:73-100 | the blank template merged with a blank line is `['*']` or `['']`, depending on `_pos` |
| SpellStream.LcsObject.Param | src/pyspell/spell_stream.py:117-156 | `param` returns the result of the slot-recovery loop, or IndexError where the source indexes past the input |
| SpellStream.ScanSlotLoop | src/pyspell/spell_stream.py:128-136 | the inner `while` loop of a wildcard position computes the slot scan |
| SpellStream.ScanSlotEntries | src/pyspell/spell_stream.py:128-136 | each slot entry is `[j, seq[j], prev, None]` for consecutive `j`; only the first entry carries the `prev_token` it was called with, after which `prev_token` is None and `fill_next_token` is set; an empty slot leaves both as they were; the scan stops only where the next template token appears |
| SpellStream.ScanSlotTokens | src/pyspell/spell_stream.py:128-136 | the tokens of a slot are exactly the input slice it covers |
| SpellStream.ParamRoundTrip | src/pyspell/spell_stream.py:117-156 | a non-empty result has one slot list per wildcard position; putting each slot's tokens in place of its `'*'` gives the input back |
| SpellStream.LcsMap.constructor | src/pyspell/spell_stream.py:232-236 | a new map has no objects and both counters at 0 |
| SpellStream.LcsMap.Match | src/pyspell/spell_stream.py:252-269 | `match` returns the object the scan over `_lcsobjs` selects |
| SpellStream.MatchRules | src/pyspell/spell_stream.py:252-269 | `None` exactly when no object passes the length filter with a count of at least half the input; otherwise a candidate with the greatest count, the earliest among equals |
| SpellStream.MatchInRange | src/pyspell/spell_stream.py:259-269 | the returned index lies in `_lcsobjs` |
| SpellStream.LcsMap.Insert | src/pyspell/spell_stream.py:238-250 | with no match, a fresh object is appended; otherwise the matched object merges the line; no other object changes |
| SpellStream.LcsMap.AddObject | src/pyspell/spell_stream.py:241-245 | the no-match branch appends a new object under the next line id and object id |
| SpellStream.LcsMap.MergeObject | src/pyspell/spell_stream.py:246-248 | the match branch merges the line into the matched object under the next line id |
| SpellStream.InsertTokensCases | src/pyspell/spell_stream.py:238-250 | the two outcomes of `insert`, as new map states |
| SpellStream.InsertWellFormed | src/pyspell/spell_stream.py:238-250 | `insert` raises `_lineid` by exactly 1; objects stay numbered by position; every line id lands in exactly one object |
| SpellStream.InsertShape | src/pyspell/spell_stream.py:238-250 | `_lcsobjs` and `_objid` grow by one exactly when `match` returns None, and the new object holds the entry's tokens; otherwise only the matched object changes |
| SpellStream.MergeIntoOk | src/pyspell/spell_stream.py:73-102 | merging keeps an object well formed and appends the line id |
| SpellStream.RepeatMatches | src/pyspell/spell_stream.py:238-269 | an entry that opened a new object matches that object when it comes again |
| SpellStream.MergeOutSelf | src/pyspell/spell_stream.py:81-97 | a template with no wildcard slots merged with itself finds every token where it stands, so the merge emits the template unchanged |
| SpellStream.RepeatKeepsTemplate | src/pyspell/spell_stream.py:238-250 | inserting the same entry twice: the second insert merges into the object the first opened, the object count stays one more than before, the template stays the entry's tokens, `_pos` lists its `'*'` positions and the line id is appended |
| StreamPrep.GetSpan | src/pyspell/spell_stream.py:403-411 | `get_span(seq, idx)` is None exactly when `idx` is outside `seq`; otherwise the start is the sum of the lengths plus separators before `idx`, and the end is that start plus `len(seq[idx])` |
| StreamPrep.SpanInJoin | src/pyspell/spell_stream.py:403-411 | the span locates token `idx` inside `' '.join(seq)` |
| StreamPrep.FindFacts | src/pyspell/spell_stream.py:323 | `str.find` returns -1 exactly when there is no occurrence; otherwise it returns the first occurrence |
| StreamPrep.GetIocParam | src/pyspell/spell_stream.py:322-327 | `char_end - char_start == len(ioc)` and `token_end == token_start + 1`; a found IOC lies at `[char_start, char_end)` |
| StreamPrep.IocTokenIndex | src/pyspell/spell_stream.py:325 | for a line of words whose IOC starts at word `idx`, `token_start` is `idx` |
| StreamPrep.Upper | src/pyspell/spell_stream.py:383 | `entity.upper()` maps each character through the ASCII case map |
| StreamPrep.Preprocess | src/pyspell/spell_stream.py:373-392 | the text and records `preprocess` returns |
| StreamPrep.ApplyRule | src/pyspell/spell_stream.py:381-385 | the inner loop splices each match in order and records each one |
| StreamPrep.PreprocessLast | src/pyspell/spell_stream.py:376-385 | a further rule splices its matches into the text so far and appends its records |
| StreamPrep.PreprocessParams | src/pyspell/spell_stream.py:384-385 | each record carries its rule's entity and one of its rule's spans; `token_start` counts the words of the original line before the match; `token_end` is one more |
| StreamPrep.SingleMatch | src/pyspell/spell_stream.py:381-385 | one match: `<ENTITY>` replaces `[start, end)`, and the record holds the matched text and word index |
| StreamPrep.TagExample | src/pyspell/spell_stream.py:383 | the mask of entity `e` is `<E>` |
| StreamPrep.StaleOffsets | src/pyspell/spell_stream.py:381-383 | two matches of one rule: the second mask lands at stale offsets |
| StreamPrep.SpliceFromRightIsSub | src/pyspell/spell_stream.py:386-387 | splicing the matches from the last to the first is exactly `re.sub` over those matches |
| StreamPrep.SubExample | src/pyspell/spell_stream.py:386-387 | on the same input, `re.sub` and the right-to-left splice both mask both matches |
| LogFormat.Splitters | src/pyspell/spell_stream.py:307 | `re.split(r'(<[^<>]+>)', fmt)` returns at least one piece, and the pieces concatenate to the format |
| LogFormat.SplittersFields | src/pyspell/spell_stream.py:307 | the odd-indexed pieces are the `<name>` fields |
| LogFormat.SplittersNoField | src/pyspell/spell_stream.py:307 | a format without `<` is one piece |
| LogFormat.ColumnOfField | src/pyspell/spell_stream.py:314 | `strip('<').strip('>')` of a field is its name |
| LogFormat.SubSpacesNoSpace | src/pyspell/spell_stream.py:311 | after `re.sub(' +', r'\s+', ...)`, no space is left |
| LogFormat.SubSpacesKeeps | src/pyspell/spell_stream.py:311 | a piece without spaces is unchanged |
| LogFormat.SubSpacesRun | src/pyspell/spell_stream.py:311 | a run of spaces becomes one `\s+` |
| LogFormat.ColumnsAreFields | src/pyspell/spell_stream.py:309-316 | the columns are the field names, in order, one per field |
| LogFormat.BuildRegex | src/pyspell/spell_stream.py:309-316 | the loop builds the column list and the regex body |
| LogFormat.MakeLogFormatRegex | src/pyspell/spell_stream.py:304-319 | the columns are the `<name>` fields in order; the regex is `^` + body + `$`; the copy at `src/pyspell/spell.py:337-352` is identical |
| LogFormat.NoFieldFormat | src/pyspell/spell_stream.py:304-319 | a format without fields has no columns, and its body is the format with space runs replaced by `\s+` |
| BatchLcs.Lcs | src/pyspell/spell.py:38-63 | `lcs` returns the traceback of the table the recurrence defines |
| BatchLcs.FillRow | src/pyspell/spell.py:42-47 | one row of the table is filled by the recurrence |
| BatchLcs.TableAt | src/pyspell/spell.py:42-47 | every filled cell holds the recurrence's value |
| BatchLcs.Walk | src/pyspell/spell.py:50-63 | the walk back through the table returns the traceback |
| BatchLcs.WalkStep | src/pyspell/spell.py:52-61 | each step of the walk strictly shrinks the indices and keeps the traceback |
| BatchLcs.TracebackStep | src/pyspell/spell.py:52-61 | the three branches of the walk, with the diagonal taking the shared token |
| BatchLcs.DiagonalEqual | src/pyspell/spell.py:57-58 | when neither neighbour equals the cell, the tokens agree (the `assert` holds) |
| BatchLcs.TracebackCommon | src/pyspell/spell.py:49-61 | the traceback is a common subsequence of both prefixes, of length `lengths[i][j]` |
| BatchLcs.LcsCommon | src/pyspell/spell.py:38-63 | `lcs(seq1, seq2)` is a common subsequence of both, of length `lengths[len1][len2]` |
| BatchLcs.LSteps | src/pyspell/spell.py:42-48 | each further row or column raises a table entry by 0 or 1 |
| BatchLcs.LLongest | src/pyspell/spell.py:42-48 | no common subsequence of `seq1[:i]` and `seq2[:j]` is longer than `lengths[i][j]` |
| BatchLcs.LcsLongest | src/pyspell/spell.py:37-63 | no common subsequence of `seq1` and `seq2` is longer than `lcs(seq1, seq2)`, which is therefore a longest one |
| BatchLcs.LPositive | src/pyspell/spell.py:42-45 | a shared token makes the table value positive |
| BatchLcs.SharedTokenLcs | src/pyspell/spell.py:38-63 | sequences sharing a token have a non-empty LCS |
| BatchMatch.SimpleLoopMatch | src/pyspell/spell.py:66-75 | a returned cluster is at least half as long as `seq`, and each of its tokens is `'*'` or occurs in `seq` |
| BatchMatch.LoopFromFirst | src/pyspell/spell.py:67-73 | the scan returns the first fitting cluster from its start on, and None only when none fits |
| BatchMatch.SimpleLoopMatchFirst | src/pyspell/spell.py:66-75 | `simple_loop_match` returns the first fitting cluster in list order, and None exactly when none fits; the copy at `src/spell.py:63-72` is identical |
| BatchMatch.Cands | src/pyspell/spell.py:97-103 | one entry per cluster: skipped, or its LCS length and template length |
| BatchMatch.BestUpTo | src/pyspell/spell.py:97-106 | the running best is an eligible cluster whose LCS length is `max_len`, or none with `max_len == -1` |
| BatchMatch.BestUpToIsBest | src/pyspell/spell.py:97-106 | no eligible cluster seen so far beats the running best: a longer LCS, or an equal LCS with a strictly shorter template |
| BatchMatch.ChooseIsBest | src/pyspell/spell.py:104-111 | the chosen cluster is eligible, reaches `tau * n` and is unbeaten; None exactly when no eligible cluster reaches `tau * n` |
| BatchMatch.Choose | src/pyspell/spell.py:108-111 | the choice is a cluster index |
| BatchMatch.LcsMatchSpec | src/pyspell/spell.py:91-112 | the result is a cluster index |
| BatchMatch.LcsMatch | src/pyspell/spell.py:91-112 | the loop of `lcs_match` returns the cluster its rules select |
| BatchMatch.LcsMatchRules | src/pyspell/spell.py:91-112 | clusters sharing fewer than `0.5 * n` distinct tokens are skipped; the result has the greatest LCS length, ties going to a strictly shorter template, then the earlier cluster; it must reach `tau * n`, and None means no eligible cluster does; the copy at `src/spell.py:88-109` is identical |
| BatchMatch.EligibleLcs | src/pyspell/spell.py:99-103 | an eligible cluster shares a token with a non-empty line, so its LCS is non-empty |
| BatchTemplate.GetTemplate | src/pyspell/spell.py:115-142 | `get_template` returns a bare `[]` for an empty LCS; otherwise it returns the template and parameters the walk defines |
| BatchTemplate.TemplateStep | src/pyspell/spell.py:124-135 | a token equal to the pending LCS head is kept; any other token becomes `'*'` with a parameter at its offset |
| BatchTemplate.TemplateShape | src/pyspell/spell.py:124-138 | the template is no longer than `seq`, and each token is the token of `seq` at that place or `'*'` |
| BatchTemplate.TemplateKeepsLcs | src/pyspell/spell.py:121-135 | when the LCS is a subsequence of `seq`, the template's constant tokens are exactly the LCS |
| BatchTemplate.TrailingLocated | src/pyspell/spell.py:137-140 | the unconsumed suffix becomes one parameter, whose offsets locate its joined text in the joined line |
| BatchTemplate.TemplateParamsLocated | src/pyspell/spell.py:124-140 | every parameter `[pos, pos + len(t), t]` of `get_template` locates `t` in the joined line |
| BatchTemplate.GetParameters | src/pyspell/spell.py:145-167 | `get_parameters` returns the result of the lockstep walk, or IndexError where it reads past `original_seq` |
| BatchTemplate.ParamsStep | src/pyspell/spell.py:153-165 | a step emits a parameter where the token differs from the template and advances `pos` by `len(original_seq[i-1]) + 1`; the tail becomes one joined parameter |
| BatchTemplate.ParamsFromFails | src/pyspell/spell.py:153-161 | the walk fails, with IndexError, exactly when `original_seq` is shorter than both `seq` and the template |
| BatchTemplate.GetParametersFails | src/pyspell/spell.py:145-167 | `get_parameters` fails exactly for a non-empty template and too short an `original_seq`, and then with IndexError; it returns `[]` for an empty template |
| BatchTemplate.ParamsFromLocated | src/pyspell/spell.py:153-165 | with `original_seq == seq`, every parameter of the walk locates its text in the joined line |
| BatchTemplate.GetParametersLocated | src/pyspell/spell.py:145-167 | with `original_seq == seq`, `get_parameters` succeeds and every parameter locates its text in the joined line |
| BatchTree.PrefixTreeMatch | src/pyspell/spell.py:77-89 | a returned cluster has more than `tau * n` non-`'*'` tokens; the copy at `src/spell.py:74-86` is identical |
| BatchTree.SetCount | src/pyspell/spell.py:177 | raising one node's count changes no other node, nor that node's children or cluster |
| BatchTree.Grow | src/pyspell/spell.py:179 | a new child with count 1 goes at the end of the arena and is linked from its parent; nothing else changes |
| BatchTree.SetCountOk | src/pyspell/spell.py:177 | changing a count keeps child links pointing forward |
| BatchTree.GrowOk | src/pyspell/spell.py:179 | growing a child keeps child links pointing forward |
| BatchTree.AddPathArena | src/pyspell/spell.py:170-184 | adding a path keeps the tree well formed: children after parents, counts at least 1, clusters in range; the copy at `src/spell.py:136-150` is identical |
| BatchTree.AddPathFrame | src/pyspell/spell.py:173-184 | adding from a node changes no earlier node, nor the start node's own count |
| BatchTree.AddPathSetCount | src/pyspell/spell.py:176-181 | the count of a node at or before the start plays no part in the walk |
| BatchTree.RemovePathArena | src/pyspell/spell.py:187-199 | removing a path keeps the tree well formed |
| BatchTree.AddThenRemove | src/pyspell/spell.py:170-199 | adding a path and then removing it restores every pre-existing node's count and children |
| BatchTree.AddThenRemoveOld | src/pyspell/spell.py:176-199 | when the first token is already a child, removing the path right after adding it restores every pre-existing node's count and children |
| BatchTree.AddThenRemoveNew | src/pyspell/spell.py:178-196 | when the first token is not yet a child, removing the path right after adding it restores every pre-existing node's count and children |
| BatchStore.AddSeq | src/pyspell/spell.py:170-184 | the loop of `add_seq_to_prefix_tree` computes the path addition |
| BatchStore.AddPathUnfold | src/pyspell/spell.py:176-181 | one step of the addition: bump an existing child, or grow a new one |
| BatchStore.RemoveSeq | src/pyspell/spell.py:187-199 | the loop of `remove_seq_from_prefix_tree` computes the path removal |
| BatchStore.RemovePathUnfold | src/pyspell/spell.py:191-199 | one step of the removal: skip a missing token, delete a child with count 1 and stop, or lower the count and descend |
| BatchStore.QuickMatch | src/pyspell/spell.py:257-259 | the tree-then-loop match on the constant tokens returns a cluster index whose template has more than `tau * n` constant tokens or fits the loop rule |
| BatchStore.Retemplate | src/pyspell/spell.py:272-275 | replacing a template (remove, set, re-add) keeps the cluster count and the tree well formed |
| BatchStore.Target | src/pyspell/spell.py:256-267 | the line's cluster is an existing index, or the index of the new cluster |
| BatchStore.RecordFiles | src/pyspell/spell.py:281-283 | recording a line appends its id to its cluster and changes no other cluster |
| BatchStore.MergedShape | src/pyspell/spell.py:270-271 | `get_template(lcs(tokens, t), t)` is bare exactly when the LCS is empty; otherwise the new template is no longer than `t`, each token is `t`'s token or `'*'`, and its constants are the LCS |
| BatchStore.ProcessArena | src/pyspell/spell.py:245-287 | a step keeps the tree well formed over the clusters and adds at most one cluster |
| BatchStore.ProcessValueError | src/pyspell/spell.py:270-271 | the unpacking of a bare `[]` (ValueError) happens only for a line with no tokens, and changes nothing |
| BatchStore.ProcessNewCluster | src/pyspell/spell.py:256-267 | a cluster is appended exactly when all three matchers fail; it holds the line's tokens and id, and the line has no parameters |
| BatchStore.ProcessFilesLine | src/pyspell/spell.py:281-282 | the line's id is appended to its target cluster, and no other cluster changes |
| BatchStore.ProcessIdOnce | src/pyspell/spell.py:245-287 | a fresh line id ends up in exactly one cluster |
| BatchStore.ProcessMergesTemplate | src/pyspell/spell.py:261-275 | after an LCS match the cluster's template becomes the merged one: no longer, each token the old one or `'*'`, constants equal to the LCS; the line's id is appended |
| BatchStore.ProcessQuickKeeps | src/pyspell/spell.py:256-259 | a match by the prefix tree or the loop leaves every template and the tree unchanged |
| BatchStore.ProcessLcsRetemplates | src/pyspell/spell.py:268-275 | after an LCS match, a merged template that joins to the same string leaves the template and the tree unchanged; one that differs replaces the cluster's template, and the tree becomes the old constant path removed and the new one added |
| BatchStore.ProcessKeepsTemplate | src/pyspell/spell.py:256-275 | a cluster's template changes only after an LCS match that picked it and whose merged template joins to a different string |
| BatchStore.ArenaWider | src/pyspell/spell.py:266-267 | a well-formed tree stays well formed when a cluster is appended |
| BatchStore.BatchParser.constructor | src/pyspell/spell.py:241-242 | a run starts with no clusters and a tree that is only the root `Node()` |
| BatchStore.BatchParser.AddSeqToPrefixTree | src/pyspell/spell.py:170-184 | the tree becomes the path addition for the cluster's constant tokens; the clusters are unchanged |
| BatchStore.BatchParser.RemoveSeqFromPrefixTree | src/pyspell/spell.py:187-199 | the tree becomes the path removal for the cluster's constant tokens; the clusters are unchanged |
| BatchStore.BatchParser.ProcessLine | src/pyspell/spell.py:245-287 | the clusters, tree and parameters after a line are those of the per-line step |
| OldSpell.OldTracebackAgrees | src/spell.py:49-60 | where the walk as written succeeds, it returns the corrected traceback; it can only fail with IndexError or AssertionError |
| OldSpell.OldTraceback | src/spell.py:49-60 | the walk back as written fails only with IndexError or AssertionError |
| OldSpell.OldLcs | src/spell.py:35-60 | `lcs` as written fails only through its `assert`; where it returns, its result is the corrected traceback, a common subsequence of both lists of length `lengths[len1][len2]` |
| OldSpell.OldLcsIndexError | src/spell.py:55 | `lcs(['a'], ['a'])` raises IndexError, while the corrected walk returns `['a']` |
| OldSpell.OldLcsAssertionError | src/spell.py:55 | `lcs(['a', 'b'], ['a'])` fails its `assert`, while the corrected walk returns `['a']` |
| OldSpell.OldGetTemplate | src/spell.py:112-133 | a bare `[]` for an empty LCS; otherwise no longer than `seq`, each token `seq`'s or `'*'` |
| OldSpell.OldGetTemplateShape | src/spell.py:112-133 | the template alone: no longer than `seq`, each token `seq`'s or `'*'`, and its constants equal the LCS when that is a subsequence |
| OldSpell.OldRemoveFails | src/spell.py:153-165 | the removal as written raises AttributeError exactly when some path token is a child of the root; otherwise it changes nothing |
| OldSpell.OldRemovePath | src/spell.py:153-165 | the removal as written either raises AttributeError or leaves the tree unchanged |
| OldSpell.OldRemoveAfterAdd | src/spell.py:136-165 | removing a non-empty template right after adding it raises AttributeError |
| InvariantsMiner.SortDedupFacts | src/anomaly/invariants_miner.py:265 | `sorted(list(set))` is strictly increasing and holds exactly the set's members |
| InvariantsMiner.IncreasingUnique | src/anomaly/invariants_miner.py:265-266 | two strictly increasing lists with the same members are equal |
| InvariantsMiner.IncreasingCard | src/anomaly/invariants_miner.py:264-265 | a strictly increasing list has as many elements as its set |
| InvariantsMiner.LexTotal | src/anomaly/invariants_miner.py:269 | Python's list order is total on distinct lists |
| InvariantsMiner.LexAsym | src/anomaly/invariants_miner.py:269 | Python's list order is asymmetric |
| InvariantsMiner.LexTrans | src/anomaly/invariants_miner.py:269 | Python's list order is transitive |
| InvariantsMiner.InsertLexFacts | src/anomaly/invariants_miner.py:269 | inserting a new list keeps the list sorted and adds exactly that list |
| InvariantsMiner.SortListsFacts | src/anomaly/invariants_miner.py:269 | `sorted(return_list)` is sorted and a permutation of its input |
| InvariantsMiner.LexSortedPairs | src/anomaly/invariants_miner.py:269 | a sorted list is ordered pairwise, not only between neighbours |
| InvariantsMiner.JoinedShape | src/anomaly/invariants_miner.py:262-265 | each joined item is strictly increasing, is the union of the two items, and has `length` elements when the union does |
| InvariantsMiner.JoinRow | src/anomaly/invariants_miner.py:261-267 | one row of the double loop keeps the list duplicate-free and gathers every fitting pair of that row |
| InvariantsMiner.JoinSet | src/anomaly/invariants_miner.py:250-269 | the result is sorted; each entry is the sorted union of two distinct items whose union has `length` elements; every such union is in it |
| InvariantsMiner.PrependMeaning | src/anomaly/invariants_miner.py:281 | a combination starting with `x` is `x` followed by a combination of the rest |
| InvariantsMiner.CombosMeaning | src/anomaly/invariants_miner.py:281 | `combinations(item, k)` yields exactly the subsequences of `item` of length `k` |
| InvariantsMiner.InsertIntFacts | src/anomaly/invariants_miner.py:282 | inserting into a sorted list keeps it sorted and adds exactly that element |
| InvariantsMiner.SortIntsFacts | src/anomaly/invariants_miner.py:282 | `sorted(list(sub_item))` is sorted and a permutation of `sub_item` |
| InvariantsMiner.SortIntsIncreasing | src/anomaly/invariants_miner.py:282 | sorting an increasing list leaves it unchanged |
| InvariantsMiner.AllInMeaning | src/anomaly/invariants_miner.py:281-285 | the early-return loop is true exactly when every combination, sorted, is in the search space |
| InvariantsMiner.CombosCover | src/anomaly/invariants_miner.py:281 | checking the combinations is checking every subsequence of that length |
| InvariantsMiner.AllInCombos | src/anomaly/invariants_miner.py:281-285 | the loop over `combinations(item, k)` decides whether every `k`-element sub-item, sorted, is in the search space |
| InvariantsMiner.CheckValidCandidates | src/anomaly/invariants_miner.py:272-285 | ValueError exactly when `length < 1`; otherwise true exactly when every `(length-1)`-element sub-item of `item`, sorted, is in `search_space` |
| InvariantsMiner.CheckValidMeans | src/anomaly/invariants_miner.py:272-285 | `_check_valid_candidates` raises ValueError exactly when `length < 1`; otherwise it is true exactly when every `(length-1)`-element sub-item of `item`, sorted, is in `search_space` |
| InvariantsMiner.FilterMeaning | src/anomaly/invariants_miner.py:239 | the intersection holds exactly the shared elements |
| InvariantsMiner.WithoutMeaning | src/anomaly/invariants_miner.py:245 | `union - {it}` holds exactly the union's other elements |
| InvariantsMiner.Diffs | src/anomaly/invariants_miner.py:244-245 | one candidate is struck for each shared element |
| InvariantsMiner.DiffsMeaning | src/anomaly/invariants_miner.py:238-247 | the lists one valid column list strikes are exactly `sorted(union - {it})` for a shared element `it` |
| InvariantsMiner.DisjointStrikesNothing | src/anomaly/invariants_miner.py:239-241 | a valid list sharing no column with the item strikes nothing |
| InvariantsMiner.RemovalsMeaning | src/anomaly/invariants_miner.py:238-247 | a list is struck exactly when some valid column list strikes it |
| InvariantsMiner.RemoveFirstCounts | src/anomaly/invariants_miner.py:246-247 | `if diff in search_space: search_space.remove(diff)` removes one occurrence, and does nothing when the list is absent |
| InvariantsMiner.RemoveAllSnoc | src/anomaly/invariants_miner.py:244-247 | striking one more list is one more removal |
| InvariantsMiner.RemoveAllConcat | src/anomaly/invariants_miner.py:238-247 | striking two batches in turn is striking them together |
| InvariantsMiner.Strike | src/anomaly/invariants_miner.py:243-247 | the inner loop strikes that valid list's candidates from the search space |
| InvariantsMiner.Prune | src/anomaly/invariants_miner.py:226-247 | `_prune` leaves the search space as it was for empty `valid_cols`; otherwise it strikes what each valid column list strikes, in order |
| InvariantsMiner.RemoveAllCounts | src/anomaly/invariants_miner.py:238-247 | `_prune` only removes: each list keeps its count less the times it is struck, and nothing is added |
| UrlUtil.ExtractTextModel | src/ml/url_classifier/util.py:9-25 | `char2idx` numbers the distinct characters in order of first occurrence; `n_input_tokens` is its size; `idx2char` is its exact inverse; `max_url_seq_length` is the running maximum |
| UrlUtil.FlatStep | src/ml/url_classifier/util.py:12-13 | each URL extends the character stream and the running maximum |
| UrlUtil.VocabStep | src/ml/url_classifier/util.py:14-16 | an unseen character gets the next number, `len(char2idx)`; a seen one changes nothing |
| UrlUtil.FirstsFacts | src/ml/url_classifier/util.py:14-16 | the vocabulary order holds each character of the URLs once |
| UrlUtil.IndexMapFacts | src/ml/url_classifier/util.py:16-18 | numbering characters by position gives each its place, and a map of the same size |
| UrlUtil.IndexMapInjective | src/ml/url_classifier/util.py:19 | no two characters share a number, so `idx2char` is well defined |
| UrlUtil.VocabularyKeys | src/ml/url_classifier/util.py:12-16 | every character of every URL is a key of `char2idx`, and nothing else is |
| UrlUtil.VocabularyDense | src/ml/url_classifier/util.py:15-18 | the numbers are below `len(char2idx)` and distinct, so they are exactly `0 .. n_input_tokens - 1` |
| UrlUtil.VocabularyOrder | src/ml/url_classifier/util.py:12-16 | a character gets a smaller number exactly when it first occurs earlier, URL by URL and character by character |
| UrlUtil.FirstsIncreasing | src/ml/url_classifier/util.py:14-16 | the vocabulary lists characters in order of first occurrence |
| UrlUtil.FirstPosIs | src/ml/url_classifier/util.py:14-15 | a position holding the character with no earlier occurrence is its first occurrence |
| UrlUtil.MaxLenMeaning | src/ml/url_classifier/util.py:11-13 | `max_url_seq_length` is the length of the longest URL, and 0 for no URLs |
| UrlUtil.MergeDict | src/ml/url_classifier/util.py:35-41 | the keys are those of `dict1` plus the keys of `dict2` whose value is not None; such a key takes `dict2`'s value, and every other key keeps `dict1`'s |
| StreamExample.UserAlign | src/pyspell/spell_stream.py:55-71 | `getlcs` of one `User bal <addr> set <level> to ''` line against another with a different address and level matches the five fixed words, at the same positions |
| StreamExample.UserMergeOut | src/pyspell/spell_stream.py:73-102 | merging two such lines replaces the address and the level each by one `'*'`: `User bal * set * to ''` |
| StreamExample.SharedAlign | src/pyspell/spell_stream.py:55-71 | `getlcs` of `User bal * set * to ''` against any such line skips both slots and counts the five fixed words |
| StreamExample.SharedMergeOut | src/pyspell/spell_stream.py:73-102 | merging any such line into `User bal * set * to ''` leaves the template as it is |
| StreamExample.SharedParam | src/pyspell/spell_stream.py:117-156 | `param` of such a line against `User bal * set * to ''` puts the address in slot 0 at token 2 with context `bal`/`set`, and the level in slot 1 at token 4 with context `set`/`to` |
| StreamExample.MatchThird | src/pyspell/spell_stream.py:252-269 | with objects of 2, 8 and 7 tokens and a 7-token line, where only the third shares tokens (5 of them), `match` picks the third: the first fails the length filter, the second has count 0 |
| StreamExample.ParseExample | tests/test_parsing.py:35-53 | inserting the five test lines into an empty `LCSMap` leaves three objects; the last line matches the third, whose `lcsseq()` is `User bal * set * to ''`; `param` of that line gives `'(192.168.139.3)'` in slot 0 and `"'SYSLOG_ERR'"` at token 4 in slot 1 |

## Left out

- The I/O around the core is not modelled: the stdin and file drivers, spaCy, hashing, clocks, JSON, `save`/`load`, `tojson`, `print_tree`, `output_result`, `log_to_dataframe` and `__dir__`.
- `ioc_parse` is not modelled. It wraps the `iocextract` library; only `get_ioc_param`, which it calls, is modelled.
- Regular expressions are not modelled:
  - matches of user regexes are inputs, as spans;
  - the batch parser's split on `[\s=:,]` is not modelled, and lines reach `ProcessLine` already tokenised;
  - the batch parser's own `preprocess` (`re.sub` with `'*'`) is not modelled;
  - `refmt` is fixed to `\s+`;
  - `make_log_format_regex` builds the regex text, and `re.compile` is not modelled.
- `LCSObject.reparam`, `_getsep` and `_tcat` are not modelled. They compute a separator string that no modelled operation reads.
- The batch parser's per-line parameter records are left out: the sort and renumbering of `ps` and the masking records. `ProcessLine` returns the `get_parameters` result.
- Parameters carry no entity field, because the source always sets it to None.
- `get_template` and `get_parameters` are modelled by an index into the LCS instead of popping a reversed copy. `get_template`'s first loop counter `i` is kept only where it decides the result.
- The prefix tree is an arena of nodes addressed by index, not a graph of objects:
  - a node deleted from its parent stays in the arena, unreachable;
  - a node names its cluster by index in the cluster list, not by reference;
  - object identity and aliasing of `LCSObject`s are not modelled.
- BatchTree.PrefixTreeMatch: `tau` is an exact rational `num/den`, not a Python float. The comparisons `> tau * n` and `>= tau * n` are exact, without rounding.
- BatchStore.ProcessMergesTemplate: it requires every template token to be a word, because the source compares `' '.join` strings, and the join forgets empty and spaced tokens.
- StreamPrep.Upper: `str.upper()` is modelled on ASCII letters only. Other characters are left unchanged.
- SpellStream.MergedShape: "no two adjacent `'*'`" is stated only when `_pos` lists every literal `'*'` of the old template. A new object's template can hold a literal `'*'` while `_pos` is empty.
- InvariantsMiner.Prune: Python `set` iteration order is modelled as ascending order. The search space is a value, so in-place mutation of the caller's list is not modelled.
- InvariantsMiner.JoinSet: items are lists of integer column indices, and Python's list order is the lexicographic order.
- UrlUtil.MergeDict: values are `Option`s, and None is `None`. The iteration order of `dict2` plays no part.
- UrlUtil.ExtractTextModel: characters are Dafny `char`s. Python iterates code points, and surrogate pairs are not modelled.
- OldSpell.OldTraceback: the `while` loop of the older `lcs` is a recursive function, not a method with a loop. It models where the walk fails, not the in-place `result.insert(0, …)`.
- OldSpell: only the older parser's differences are modelled, reusing the shared modules for the rest. The older `add_seq_to_prefix_tree`, `prefix_tree_match`, `simple_loop_match` and `lcs_match` are identical to the batch parser's.
- The `assert` in `src/spell.py` is modelled as raising AssertionError, as it does when assertions are enabled.

## Findings

| source | as written | input that shows it | evidently intended | confidence | as-written member | corrected member |
|---|---|---|---|---|---|---|
| src/pyspell/spell_stream.py:381-383 | every match of one rule is spliced into the text at the offsets it had before earlier masks of the same rule changed the text's length | one rule matching `ab` at `[2,4)` and `[5,7)` in `x ab ab` gives `x <E><E>b` | each match masked, as the commented-out `re.sub` at lines 386-387 does: `x <E> <E>` | high (proved; not executed) | StreamPrep.StaleOffsets | StreamPrep.SpliceFromRightIsSub |
| src/spell.py:55 | the traceback asserts `seq1[seq1_len] == seq2[seq2_len - 1]`, one token past the one it takes | `lcs(['a'], ['a'])` raises IndexError; `lcs(['a', 'b'], ['a'])` raises AssertionError | compare `seq1[seq1_len - 1]`, as `src/pyspell/spell.py:58` does | high (proved; not executed) | OldSpell.OldLcsIndexError | BatchLcs.Lcs |
| src/spell.py:160 | the removal reads `matched_node.template`, which `Node` does not have | removing a non-empty template right after adding it raises AttributeError | test `matched_node.count == 1`, as `src/pyspell/spell.py:194` does | high (proved; not executed) | OldSpell.OldRemoveAfterAdd | BatchTree.AddThenRemove |
