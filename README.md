# Contract audit service: a Dafny model of its core logic

This project models the sequential core of the contract-audit service (Python):

- **Rule routing.** `find_censored_search_engine` searches a JSON tree depth-first for the engine selector, which has two spellings. The rules whose selector equals 1 become the `censored_rules`. Each rule then gets a `"pass"`/`"done"` verdict from the rule-engine response.
- **Front-end shaping.** `process_rule_for_frontend` writes a `resultList` onto a rule dict. The contract id follows the precedence `contractId`, then `contract_id`, then `"1234"`.
- **The two in-memory chat session managers.**
  - The simple one (`chat_simple.py`) caps each user at 10 sessions, evicting the oldest. It truncates to the last 100 messages, picks a prompt template by keyword priority, formats the last 5 messages as history, lists sessions newest first, and computes per-user statistics.
  - The full one (`chat.py`) has a 24-hour expiry with bulk cleanup, a canned reply, and a token-event stream.
- **The soft-delete review table** of `models.py`: create, get, list, update and delete over rows keyed by id, where delete only sets `is_deleted`.
- **The OpenAPI translation rules** of `generate_api_docs.py`: TypeScript types, example request bodies, Markdown parameter types and Postman path segments.

Modules, one per file:

- `Wrappers`: `Option`, `Result`.
- `Json`: Python values as a datatype, with truthiness, `or`, `dict.get`, `d[k] = v` and `str`.
- `Text`: `in`, `join`, `split`, `strip` and `str(int)` on strings, with their laws.
- `RuleRouting`: `debug_rule_confirm.py` and `debug_censored.py`.
- `ResultList`: `debug_resultlist_issue.py`.
- `ContractIdFix`: `debug_contract_id_fix.py`.
- `ChatSessions`: the session record shared by both managers. It also holds the ordered-dict view of the session table, namely the ids in insertion order plus a map.
- `SimpleChat`: `ContractAudit/chat_simple.py`.
- `ContractChat`: `ContractAudit/chat.py`.
- `AuditReviews`: `ContractAudit/models.py`.
- `ApiDocs`: `generate_api_docs.py`.

Stateful parts are classes whose methods change fields and state their whole new state:

- `ResultList.Dict`
- `SimpleChat.SimpleContractChatManager`
- `ContractChat.ContractChatManager`
- `AuditReviews.ReviewTable`

Loops in the source are methods with loop invariants, each proved equal to a specification function. The properties the source promises are lemmas about those functions.

How the model represents the source's runtime values:

- **Time.** Each operation takes one integer time `now` (microseconds) as a parameter. Every `datetime.now()` inside one call is taken to read the same instant.
- **Ids.** `uuid4` ids are given as fresh-id parameters.
- **Replies.** The reply text of the simple manager's `_generate_response` comes from a `generate` function parameter, fed the chosen template, the contract text, the formatted history and the question.

## Model

| member | source | states |
|---|---|---|
| RuleRouting.LevelSelector | debug_rule_confirm.py:70 | the selector at one level is a truthy camelCase value, otherwise whatever the snake_case key holds; a non-None selector comes from one of the two keys |
| RuleRouting.FindIsFirstHit | debug_rule_confirm.py:66-87 | the search returns the first selector in pre-order (current level before its children, keys then indices in order), or `(None, path)` when there is none |
| RuleRouting.FieldsFirstHit | debug_rule_confirm.py:75-78 | the dict-children loop returns the first hit among the entries from the i-th on |
| RuleRouting.ItemsFirstHit | debug_rule_confirm.py:80-85 | the list-children loop returns the first hit among the elements from the i-th on |
| RuleRouting.FailedSearchKeepsPath | debug_censored.py:36 | a failed search returns `(None, path)` with the path it was given |
| RuleRouting.HitSound | debug_censored.py:6-36 | every hit is the selector of a dict reached from the root along the hit's path (`path.key`, `key`, `path[i]`, `[i]`) |
| RuleRouting.FieldHitSound | debug_censored.py:20-25 | hits found under dict entries are reached through `path.key` / `key` |
| RuleRouting.ItemHitSound | debug_censored.py:30-33 | hits found under list elements are reached through `path[i]` / `[i]` |
| RuleRouting.FieldHitsCover | debug_censored.py:20-25 | every hit under the j-th entry is among the hits of the entries from i on, for i <= j |
| RuleRouting.ItemHitsCover | debug_censored.py:30-33 | every hit under the j-th element is among the hits of the elements from i on, for i <= j |
| RuleRouting.HitComplete | debug_censored.py:10-33 | every dict in the tree with a non-None selector contributes a hit at its path |
| RuleRouting.FindSound | debug_censored.py:13-17 | a non-None result is the selector of a dict found in the tree at the returned path |
| RuleRouting.FindNoneMeansAbsent | debug_censored.py:36 | a None result means no dict anywhere in the tree carries a selector |
| RuleRouting.NestedZeroSelector | debug_censored.py:39-42 | `{"nested": {"censoredSearchEngine": 0}}` yields `(None, "")`, because 0 is falsy and no snake_case key exists |
| RuleRouting.RulesOf | debug_rule_confirm.py:90 | the rule list is a truthy `reviewRules`, else a truthy `review_rules`, else empty; the chosen value is iterated, so a string gives its characters, a dict its keys, and a non-zero number raises TypeError |
| RuleRouting.CensoredRulesAppend | debug_rule_confirm.py:95-103 | the selection distributes over concatenation, so it keeps the rules' relative order |
| RuleRouting.CensoredRulesMembers | debug_rule_confirm.py:101-102 | a rule is selected iff it is in the input and its discovered selector equals 1 |
| RuleRouting.SelectCensoredRules | debug_rule_confirm.py:95-103 | the selection loop returns exactly the order-preserving selection, or raises AttributeError when a rule is not a dict |
| RuleRouting.Verdicts | debug_rule_confirm.py:108-135 | there is one verdict per rule |
| RuleRouting.AllPassUnlessEngineRejects | debug_rule_confirm.py:119-133 | with a missing, non-dict or erroring response, or one whose `data` is truthy, every rule gets `"pass"` |
| RuleRouting.DoneCountIsCensoredCount | debug_rule_confirm.py:119-130 | when the engine answers with falsy `data`, the number of `"done"` verdicts is the number of censored rules |
| RuleRouting.DoneRulesAreCensored | debug_rule_confirm.py:115-130 | a `"done"` rule is always one of the censored rules |
| RuleRouting.VerdictAt | debug_rule_confirm.py:108-135 | the i-th verdict is the verdict for the i-th rule |
| RuleRouting.ReviewRules | debug_rule_confirm.py:108-135 | the per-rule loop returns the verdict sequence, or raises AttributeError when a rule is not a dict |
| ResultList.ResultItem | debug_resultlist_issue.py:84-106 | the item has `suggestions` = `str(rule['suggestions'])` iff that field is truthy, likewise `matched_content`, and no other key |
| ResultList.ResultListOf | debug_resultlist_issue.py:113-116 | `resultList` has at most one element and is empty iff both fields are missing or falsy |
| ResultList.WithResultList | debug_resultlist_issue.py:122 | after the write, `resultList` reads the new list, every other key reads as before, and the other entries keep their places |
| ResultList.ProcessIdempotent | debug_resultlist_issue.py:74-125 | processing an already processed rule changes nothing |
| ResultList.ProcessRuleForFrontend | debug_resultlist_issue.py:74-125 | the method writes exactly `WithResultList` of the old entries into the dict it is given and returns that same dict |
| ResultList.ProcessCompletedRule | debug_resultlist_issue.py:129 | the caller processes a fresh copy and the original rule keeps its entries |
| ResultList.Dict.Copy | debug_resultlist_issue.py:129 | `copy()` gives a fresh dict with the same entries |
| ContractIdFix.ResolveContractId | debug_contract_id_fix.py:42-46 | a truthy `contractId` wins, else a truthy `contract_id`, else `"1234"`; the result is always truthy |
| ContractIdFix.ContractIdNeverEmpty | debug_contract_id_fix.py:42-46 | the id is never None nor empty and comes from one of the two keys or the default |
| ContractIdFix.ContractIdScenarios | debug_contract_id_fix.py:63-75 | the three scenarios give `test-001`, `test-002` and `1234` |
| ChatSessions.RecentMessages | ContractAudit/chat.py:146-156 | the result is a suffix of the messages, `min(count, len)` long for count >= 1, and the whole list for count 0 (Python's `[-0:]`) |
| ChatSessions.SliceStart | ContractAudit/chat_simple.py:280 | a Python negative slice start always lands inside the list |
| ChatSessions.Without | ContractAudit/chat_simple.py:227-234 | deleting a key from the dict order keeps exactly the other keys |
| ChatSessions.WithoutDistinct | ContractAudit/chat.py:262-263 | deleting keeps the dict order free of duplicates |
| ChatSessions.SessionsOfAppend | ContractAudit/chat.py:342-346 | the filtered listing distributes over the dict order |
| ChatSessions.SessionsOfFrame | ContractAudit/chat.py:342-346 | the listing depends only on the sessions named in the order |
| ChatSessions.SessionsOfMembers | ContractAudit/chat.py:343-345 | every listed dict entry owned by the user appears in the listing |
| ChatSessions.SessionsOfWithout | ContractAudit/chat.py:262-263 | deleting a session shortens a user's listing by one iff the user owns it |
| ChatSessions.CountWithout | ContractAudit/chat_simple.py:229-231 | dropping a key from the order shortens a user's listing by one iff the user owns that session |
| ChatSessions.WithoutAbsent | ContractAudit/chat.py:262-266 | deleting an absent key leaves the order as it was |
| ChatSessions.TotalMessagesAppend | ContractAudit/chat_simple.py:390 | the message total distributes over the dict order |
| ChatSessions.SessionsOfSound | ContractAudit/chat.py:342-346 | every listed session is the dict's value under its own id and belongs to the requested user |
| ChatSessions.ListAfterAdd | ContractAudit/chat.py:217 | inserting a new session appends it to the listings of its owner and of `None` only |
| ChatSessions.ListAfterDeleteOther | ContractAudit/chat_simple.py:227-234 | deleting a session another user owns leaves a user's listing unchanged |
| ChatSessions.DropHidden | ContractAudit/chat_simple.py:227-234 | dropping from the order a key the user does not own leaves that user's listing unchanged |
| ChatSessions.ListAfterReplace | ContractAudit/chat_simple.py:301-318 | updating a session in place keeps every listing's length |
| ChatSessions.WellKeyedAdd | ContractAudit/chat.py:217 | insertion under a fresh id keeps the order and the map consistent |
| ChatSessions.WellKeyedDelete | ContractAudit/chat.py:262-263 | deletion keeps the order and the map consistent |
| ChatSessions.WellKeyedReplace | ContractAudit/chat_simple.py:301-318 | updating a stored session keeps the order and the map consistent |
| SimpleChat.GetTemplate | ContractAudit/chat_simple.py:105-188 | a known template name selects that template; an unknown one falls back to `basic` |
| SimpleChat.GetTemplateRoundTrip | ContractAudit/chat_simple.py:105-188 | each template is selected by its own name |
| SimpleChat.TemplatePriority | ContractAudit/chat_simple.py:257-272 | the template is risk if the question contains 风险, else clause (条款), else legal (法律), else summary (摘要/总结/概述), else negotiation (谈判/协商/建议), else basic |
| SimpleChat.RiskGroup | ContractAudit/chat_simple.py:261 | the risk keyword list matches iff 风险 occurs |
| SimpleChat.ClauseGroup | ContractAudit/chat_simple.py:263 | the clause keyword list matches iff 条款 occurs |
| SimpleChat.LegalGroup | ContractAudit/chat_simple.py:265 | the legal keyword list matches iff 法律 occurs |
| SimpleChat.AnyOfThree | ContractAudit/chat_simple.py:267-269 | `any` over three keywords holds iff one of them occurs |
| SimpleChat.GroupReduces | ContractAudit/chat_simple.py:261-265 | keywords that contain the first keyword add nothing to `any` |
| SimpleChat.HistoryLines | ContractAudit/chat_simple.py:280-282 | there is one line per message, in order, labelled 用户 for role `user` and 助手 otherwise |
| SimpleChat.Window | ContractAudit/chat_simple.py:280 | `messages[-5:]` is the last `min(5, n)` messages |
| SimpleChat.FormatChatHistory | ContractAudit/chat_simple.py:274-284 | the loop produces `无聊天历史` for no messages, otherwise the newline-joined lines of the window |
| SimpleChat.HistoryShowsLastFive | ContractAudit/chat_simple.py:274-284 | when no content holds a newline, splitting the history on newlines gives one line per message of the last `min(5, n)`, oldest first |
| SimpleChat.LineHasNoNewline | ContractAudit/chat_simple.py:281-282 | a history line has a newline only if the message content has one |
| SimpleChat.HistoryNotMarker | ContractAudit/chat_simple.py:276-284 | a non-empty history never equals the no-history marker |
| SimpleChat.TrimLeft | ContractAudit/chat_simple.py:201 | stripping from the left leaves no leading whitespace, and leaves nothing iff the string is all whitespace |
| SimpleChat.TrimRight | ContractAudit/chat_simple.py:201 | stripping from the right leaves a prefix, and leaves nothing iff the string is all whitespace |
| SimpleChat.MissingIffBlank | ContractAudit/chat_simple.py:201-202 | the user id is rejected iff it is empty or consists of whitespace only |
| SimpleChat.OldestIndex | ContractAudit/chat_simple.py:209 | `min(..., key=created_at)` picks the first session with the least `created_at` |
| SimpleChat.InsertByRecentKeeps | ContractAudit/chat_simple.py:384 | inserting into a newest-first list keeps it newest-first and adds exactly that session |
| SimpleChat.InsertByRecentAdds | ContractAudit/chat_simple.py:384 | an insertion adds exactly the inserted session to the listed ones |
| SimpleChat.InsertByRecentSorted | ContractAudit/chat_simple.py:384 | an insertion keeps a newest-first list newest-first, and the new head is the inserted session or the old head |
| SimpleChat.SortByRecentSorts | ContractAudit/chat_simple.py:384 | the sort orders by `updated_at`, newest first, and is a permutation |
| SimpleChat.ContextPreview | ContractAudit/chat_simple.py:325 | the contract text is shown whole up to 200 characters, otherwise as its first 200 followed by `...` |
| SimpleChat.MessageSumAppend | ContractAudit/chat_simple.py:399 | message counts add up over concatenated listings |
| SimpleChat.UserListSnoc | ContractAudit/chat_simple.py:394-399 | visiting one more dict entry extends a user's listing by that entry if the user owns it |
| SimpleChat.UserStatsMatchListing | ContractAudit/chat_simple.py:393-399 | a user has a `user_stats` entry iff they own a session, and the entry counts exactly their sessions and their messages |
| SimpleChat.UserStatsStep | ContractAudit/chat_simple.py:395-399 | one loop step adds one session and its messages to its owner's entry and leaves the other users' entries alone |
| SimpleChat.ReplaceKeepsCap | ContractAudit/chat_simple.py:301-318 | updating a session in place keeps every user within 10 sessions |
| SimpleChat.Converse | ContractAudit/chat_simple.py:300-318 | the user message is appended, the list is cut to its last 100, and the reply is generated from the chosen template and the history of the kept messages and appended; the new length is `min(old+1, 100) + 1` |
| SimpleChat.SimpleContractChatManager.constructor | ContractAudit/chat_simple.py:193-197 | the manager starts with no sessions and no contract text |
| SimpleChat.SimpleContractChatManager.DeleteSession | ContractAudit/chat_simple.py:227-234 | returns true and removes the key iff it was present; only the owner's count drops, by one; the cap is kept |
| SimpleChat.SimpleContractChatManager.CreateSession | ContractAudit/chat_simple.py:199-221 | a blank user id raises ValueError with no change; at 10 sessions the earliest created one is deleted first; the new empty session is stored under its id; the user's count becomes `min(count+1, 10)`; other users are untouched; the cap is kept |
| SimpleChat.SimpleContractChatManager.Chat | ContractAudit/chat_simple.py:286-348 | an unknown session gives the not-found result with no change; a message over 10000 characters appends only one assistant error message flagged `ValueError`; otherwise the exchange of `Converse` is stored and answered with the context preview |
| SimpleChat.SimpleContractChatManager.ListSessions | ContractAudit/chat_simple.py:376-385 | the user's (or all) sessions, as a permutation of the filtered dict values, newest `updated_at` first |
| SimpleChat.SimpleContractChatManager.GetSystemStats | ContractAudit/chat_simple.py:387-410 | the totals count all sessions and messages; `user_stats` is the per-user table and `active_users` its size |
| ContractChat.ExpiryBoundary | ContractAudit/chat.py:246-250 | a session exactly 24 hours old is not expired, one a microsecond older is |
| ContractChat.ExpiredStaysExpired | ContractAudit/chat.py:243-250 | an expired session stays expired later |
| ContractChat.ExpiredIds | ContractAudit/chat.py:355-358 | the collected ids are exactly the stored sessions that are expired |
| ContractChat.ExpiredIdsDistinct | ContractAudit/chat.py:355-358 | no id is collected twice |
| ContractChat.WithoutAll | ContractAudit/chat.py:360-361 | deleting a list of ids keeps exactly the other keys |
| ContractChat.ReplyQuotesQuestion | ContractAudit/chat.py:303 | the reply begins `收到您的问题: ` followed by the question, and the question can be read back from it |
| ContractChat.ProgressRoundTrip | ContractAudit/chat.py:422 | the `progress` text splits on `/` into the two numbers |
| ContractChat.ChatStream | ContractAudit/chat.py:385-442 | one `start`, then one `token` per character with index 1..n and progress `i/n`, then `complete` with `n`; the tokens spell the response text |
| ContractChat.ContractChatManager.constructor | ContractAudit/chat.py:181-186 | the manager starts with no sessions |
| ContractChat.ContractChatManager.CreateSession | ContractAudit/chat.py:200-219 | a new empty session is stored under the fresh id with no per-user cap, and it is appended to its owner's listing only |
| ContractChat.ContractChatManager.DeleteSession | ContractAudit/chat.py:252-266 | returns true and removes the key iff it was present |
| ContractChat.ContractChatManager.Chat | ContractAudit/chat.py:290-315 | the reply is always the canned text; a non-empty known id gets exactly two messages, user then assistant; otherwise nothing changes |
| ContractChat.ContractChatManager.ListSessions | ContractAudit/chat.py:332-346 | the sessions of that user, or all of them for None, in dict order |
| ContractChat.ContractChatManager.CleanupExpiredSessions | ContractAudit/chat.py:348-366 | removes exactly the expired sessions, keeps the others unchanged and returns the number removed |
| ContractChat.ContractChatManager.DeleteEach | ContractAudit/chat.py:360-361 | deleting each collected id removes exactly those keys and shrinks the dict by their number |
| AuditReviews.ParseRisk | ContractAudit/models.py:20 | `risk_level` accepts exactly 高, 中, 低 and 无 |
| AuditReviews.RiskRoundTrip | ContractAudit/models.py:20 | each risk level is stored and read back as its own label |
| AuditReviews.ParseStatus | ContractAudit/models.py:21 | `review_status` accepts exactly 通过, 不通过 and 待审查 |
| AuditReviews.StatusRoundTrip | ContractAudit/models.py:21 | each status is stored and read back as its own label |
| AuditReviews.Patched | ContractAudit/models.py:51-52 | an update sets exactly the supplied columns and leaves every other column as it was |
| AuditReviews.PatchedIdempotent | ContractAudit/models.py:51-52 | an empty update changes nothing, and applying the same update twice equals applying it once |
| AuditReviews.Visible | ContractAudit/models.py:45 | listed rows are stored, not deleted, and in ascending id order |
| AuditReviews.VisibleComplete | ContractAudit/models.py:45 | every stored, non-deleted row is listed |
| AuditReviews.VisibleBound | ContractAudit/models.py:45 | the listing is no longer than the table |
| AuditReviews.IdsDistinct | ContractAudit/models.py:18 | rows in ascending id order have distinct ids |
| AuditReviews.ReviewTable.constructor | ContractAudit/models.py:11-27 | the table starts empty, with the next id at 1 |
| AuditReviews.ReviewTable.Get | ContractAudit/models.py:41-42 | returns a row iff it exists and is not deleted |
| AuditReviews.ReviewTable.List | ContractAudit/models.py:44-45 | the non-deleted rows, the first `skip` dropped and at most `limit` returned |
| AuditReviews.ReviewTable.ListShowsVisible | ContractAudit/models.py:41-45 | with a large enough limit, `list` shows exactly the rows `get` returns |
| AuditReviews.ReviewTable.Create | ContractAudit/models.py:34-39 | a missing `project_name` fails; a label outside the enums fails; otherwise a row with a fresh id and the defaults 无, 待审查 and not deleted is stored, timestamped now |
| AuditReviews.ReviewTable.Update | ContractAudit/models.py:47-55 | a missing or deleted row gives None with no change; an explicit None for a NOT NULL column (`project_name`, `risk_level`, `review_status`, `is_deleted`) fails with IntegrityError and changes nothing; a bad label fails; otherwise exactly the supplied columns change, and `updated_at` moves only when some column changed |
| AuditReviews.ReviewTable.Delete | ContractAudit/models.py:57-63 | returns false with no change for a missing or deleted row, otherwise sets `is_deleted`; afterwards `get` returns None for that id (so a second delete returns false) and every other `get` is unchanged |
| ApiDocs.UnionMembers | generate_api_docs.py:130-138 | each option adds at most one member to the union |
| ApiDocs.UnionMembersShape | generate_api_docs.py:132-138 | every member is `string` or `null`, and the union is empty exactly when no option has either type |
| ApiDocs.UnionMembersSnoc | generate_api_docs.py:133-138 | the options are scanned in order: one more option at the end adds its contribution at the end |
| ApiDocs.TsType | generate_api_docs.py:119-139 | with a `type` the result is one of `string`, `number`, `boolean`, `any[]`, `any`; with an `anyOf` and no `type` it is the union members joined by ` \| `, or `any` when there are none; with neither it is `any` |
| ApiDocs.TsTypeOfType | generate_api_docs.py:121-129 | for any property whose `type` is a string, string maps to `string`, integer to `number`, boolean to `boolean`, array to `any[]`, anything else to `any`; a non-string `type` gives `any` |
| ApiDocs.UnionMembersOne | generate_api_docs.py:132-138 | one option contributes `string` or `null` when that is its type, and nothing otherwise |
| ApiDocs.UnionMembersAppend | generate_api_docs.py:132-138 | the union of concatenated option lists is the concatenation of their unions, so options keep their order |
| ApiDocs.TsTypeOfOptionalString | generate_api_docs.py:130-139 | any property without `type` whose `anyOf` is a string option then a null option becomes `string \| null` |
| ApiDocs.TsTypeOfOtherUnion | generate_api_docs.py:130-139 | any property without `type` whose `anyOf` has no string or null option becomes `any` |
| ApiDocs.OptionalMarker | generate_api_docs.py:142-145 | the property line carries `?` after the name iff the property is not in `required` |
| ApiDocs.TsTypeOf | generate_api_docs.py:119-139 | the per-property branches compute the TypeScript type |
| ApiDocs.UnionOf | generate_api_docs.py:132-138 | the `anyOf` loop collects the union members |
| ApiDocs.InterfaceBody | generate_api_docs.py:116-145 | the property loop produces one line per property, in order |
| ApiDocs.GenerateTypeScript | generate_api_docs.py:107-147 | the file is the header followed by one interface per schema, in order |
| ApiDocs.AnyOfExample | generate_api_docs.py:236-248 | the first non-null option decides, and may assign nothing; an option without `type` raises KeyError; all-null options give None |
| ApiDocs.GenerateExampleData | generate_api_docs.py:221-250 | the loop builds the example of the properties, or stops with the first error |
| ApiDocs.ExampleErrSticks | generate_api_docs.py:236-240 | once a property raises, later properties do not matter |
| ApiDocs.ExampleAt | generate_api_docs.py:227-248 | with distinct names, the example has a key for a property iff its rule assigns one, and holds that value |
| ApiDocs.ExampleKeysFrom | generate_api_docs.py:221-250 | the example has no key that is not a property name |
| ApiDocs.RefOptionFails | generate_api_docs.py:237-238 | an `Optional[Model]` property, whose first option is a `$ref` without `type`, raises KeyError |
| ApiDocs.AnyOfArrayOrNull | generate_api_docs.py:236-248 | a first non-null array option assigns nothing; all-null options assign None |
| ApiDocs.AnyOfTypes | generate_api_docs.py:66 | the comprehension fails with AttributeError exactly when some option is not a dict; otherwise it yields each option's `type`, or `any` where it is missing, one per option |
| ApiDocs.TypeNames | generate_api_docs.py:66 | the join succeeds exactly when every type is a string, and yields those strings in order; otherwise it fails with TypeError |
| ApiDocs.ParamTypeChoice | generate_api_docs.py:60-68 | `type` wins (as its `str`); else a string `$ref` gives its last `/` segment and any other `$ref` raises AttributeError; else `anyOf` raises AttributeError on a non-dict option, then TypeError on a non-string type, and otherwise gives the type names joined by ` \| `; else `any` |
| ApiDocs.ParamTypeNonDictBeforeJoin | generate_api_docs.py:66 | an `anyOf` of `[{"type": 1}, "x"]` raises AttributeError, not TypeError, because the whole list is built before the join |
| ApiDocs.RefNameIsLastSegment | generate_api_docs.py:64 | the type name taken from `$ref` holds no `/` and ends the reference |
| ApiDocs.PathSegmentsRoundTrip | generate_api_docs.py:185 | path segments hold no `/`; joined with `/` they give the path without its outer slashes; for a non-empty stripped path the first and last segments are non-empty |

## Left out

- Logging, `print`, console UIs, sample-file creation, `time.sleep`, response-time measurement and ISO timestamps in results are not modelled.
- `load_contract_to_vectorstore` (filesystem) is not modelled, so the simple manager's contract text is always empty and the chat is answered with `暂无合同内容`.
- The prompt template texts, and the text `_generate_response` builds from them, are not modelled. The reply is a parameter function of the chosen template, the contract text, the history and the question. The function is total because the templates hold only the three placeholders `format` fills, so `format` cannot raise.
- `get_session` and `get_session_history` are plain dict lookups and serialisations (`to_dict`), and are not modelled.
- `get_system_stats` of `chat.py` is not modelled. The four constant availability flags of the simple manager's statistics are not modelled either.
- `ContractChat.ContractChatManager.Chat` does not model the `try`/`except` around the reply. Nothing in its body can raise once ids and time are parameters.
- The `None` branch of `_is_session_expired` is modelled (`SessionExpired` with `None`). However, sessions created by either manager always get `updated_at` in `__post_init__`, so stored sessions always carry a time.
- Time is in integer microseconds, not floating-point seconds. The list sort in `chat_simple.py` compares ISO-format strings; the model compares times.
- `SimpleChat.SortByRecentSorts`: stability of `list.sort` (ties keep dict order) is modelled by the insertion order of `InsertByRecent` but not stated as a lemma.
- `SimpleChat.SimpleContractChatManager.Chat`: the error path appends one message without truncating, so the model states no upper bound on a session's message count. The source keeps none either.
- Sessions are values in the manager's map. Aliasing of `ChatSession` objects held outside the manager is not modelled.
- `question.lower()` in template selection is not modelled. The keywords are Chinese characters, which have no case, so lowering cannot create or destroy a match.
- Python's `str.isspace` is modelled as the fixed set of Unicode whitespace code points in `SimpleChat.IsSpace`.
- Floats, byte strings and tuples are not in the JSON value model. `str()`/`repr()` of strings inside containers does not escape quotes or special characters.
- ORM details are not modelled:
  - unknown keys in a create or update dict (SQLAlchemy raises on them);
  - setting `id`, `created_at` or `updated_at` through the dict;
  - an explicit `None` in a create dict: the model's create data cannot tell it from an absent key and applies the column default, where the database would reject a `None` in a NOT NULL column at commit;
  - `ext_json` mutation tracking.
- The database is assumed to reject any label outside the enum columns (`DataError`). When an update holds both a `None` in a NOT NULL column and a bad label, the model reports the `IntegrityError`.
- SimpleChat.SimpleContractChatManager.GetSystemStats: `user_stats` is a map, so the dict's first-seen key order is not modelled; the counts per user are.
- `list` is assumed to return rows in primary-key order; the query has no `ORDER BY`.
- `skip` and `limit` are taken as non-negative.
- The model of `generate_api_docs.py` treats a schema part that is not a dict or list (where the source would raise on indexing) as empty.
- The model assumes `components.schemas` and `properties` are present where the source indexes them directly.
- The network fetch of the OpenAPI document, all file writes, the Markdown document text other than the parameter type, and the Postman collection other than the path segments are not modelled.
- The rule-confirmation HTTP call is not modelled. Its response is a parameter.
- `print` of the discovered path and rule ids in the rule-routing scripts is not modelled.
