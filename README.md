# Ingest settings, routing, sending and multi-image editing in Dafny

This project models the client-side bookkeeping of the Superdesk ingest
module, plus two pieces of the search app:

- the routing-scheme editor and its Filter and Action tabs;
- the rule-set editor;
- the ingest-provider form: defaults, field aliases, content types, RSS
  credentials and the feeding-service configuration;
- the dashboard helpers: `forcedExtend`, the user's dashboard preferences
  and `isIdle`;
- the `scheduleFilter` and `insert` filters, `RegExp.escape`, and the
  subject-code paths;
- the `send` service and the `remove` service;
- the multi-image metadata dialog;
- the marked-desks badge of a search result.

Everything the code fetches from or saves to the server enters the model as
a parameter: a server list, a response outcome or the current time.

Objects that the source changes in place become classes whose methods state
their whole new state:

- the scheme editor, the rule-set editor and the provider form;
- the routing tabs, whose `rule: '='` binding is the shared `SchemeEditor`;
- the send and remove services, the subject service and the image dialog.

Expressions and recursion become functions. What the source promises about
them is stated in their contracts, or in lemmas next to them when it relates
several calls.

JavaScript values:

- `undefined`, `null` and a present value are told apart by
  `Field<T> = Absent | Null | Present(value)`.
- Truthiness is `Truthy`.
- Object identity (`===` on objects) is an `oid` number. Lodash's partial
  matching (`_.remove`, `_.find` with an object) skips every key the
  pattern lacks and compares the rest by value, never the `oid`.
- A plain object whose key order matters (the alias objects) is a list of
  key/value pairs. Other objects are maps.

Modules, one file each:

- `Common`: `Option`, `Field`, joining, number formatting.
- `Lists`: `_.filter`, and the splice-move of `reorder`.
- `RoutingRules` and `RoutingContent`: the scheme editor.
- `RoutingFilter` and `RoutingActionTab`: the rule form's tabs.
- `RuleSets`: the rule-set editor.
- `Providers` and `IngestSources`: provider records and the provider form.
- `Dashboard`: the dashboard helpers.
- `TextFilters`: the two filters.
- `Subjects`: subject-code paths.
- `Send` and `RemoveIngested`: the two services.
- `MultiImageEdit`: the image dialog.
- `MarkedDesks`: the marked-desks badge.

## Model

| member | source | states |
|---|---|---|
| RoutingRules.DefaultRule | scripts/superdesk-ingest/module.js:907-921 | The rule `addRule` creates has a null name and filter, no fetch or publish actions and `exit` false. It runs every day MON..SUN from 00:00:00 to 23:55:00. |
| RoutingRules.FindFilter | scripts/superdesk-ingest/module.js:937 | A filter found by `_.find(filters, {_id: rule.filter})` is listed and carries the rule's filter id. When none is found, no listed filter has that id, and a rule without a filter id finds nothing. |
| RoutingRules.RemoveMatching | scripts/superdesk-ingest/module.js:903 | `_.remove(rules, rule)` by lodash matching keeps a rule exactly when the removed rule does not match it. A key the removed rule lacks (no name, no filter) matches anything, so every rule that agrees on the keys it has goes, not only the clicked one. |
| RoutingRules.RemoveMatchingRemoves | scripts/superdesk-ingest/module.js:898-905 | The removed rule never remains in the list. |
| RoutingRules.StripFilterNames | scripts/superdesk-ingest/module.js:855-858 | Every rule loses `filterName` and nothing else; order and length are kept. |
| RoutingRules.SaveRules | scripts/superdesk-ingest/module.js:843-858 | No saved rule has a null name or a `filterName`. |
| RoutingRules.SavedRulesAreNamed | scripts/superdesk-ingest/module.js:843-858 | Every named rule of the edited list is saved without its `filterName`. |
| RoutingRules.SaveAppendsPending | scripts/superdesk-ingest/module.js:843-858 | With `ruleIndex` -1, the named open rule is saved last, after the saved form of the existing rules. |
| RoutingRules.SaveReplacesAtIndex | scripts/superdesk-ingest/module.js:843-858 | With `ruleIndex` inside the list, the named open rule takes the place of the rule there. The rules before and after it are saved as usual. |
| RoutingRules.SaveIdempotent | scripts/superdesk-ingest/module.js:843-858 | Saving a saved list again, with no open rule, changes nothing. |
| RoutingContent.SchemeEditor.constructor | scripts/superdesk-ingest/module.js:808-812 | The page starts with no rules and no open rule. |
| RoutingContent.SchemeEditor.Edit | scripts/superdesk-ingest/module.js:837-841 | The edited rule list is the scheme's, or empty when it has none. |
| RoutingContent.SchemeEditor.EditRule | scripts/superdesk-ingest/module.js:932-942 | The rule becomes the open rule. When its filter id names a known filter, that filter's name is recorded on it, and also on its entry in the list, being the same object. |
| RoutingContent.SchemeEditor.AddRule | scripts/superdesk-ingest/module.js:907-924 | The list grows by exactly the default rule, placed last. That rule is open, and the earlier rules are unchanged. |
| RoutingContent.SchemeEditor.RemoveRule | scripts/superdesk-ingest/module.js:898-905 | The open rule is closed when it is the one removed. Every rule the removed one matches leaves the list. |
| RoutingContent.SchemeEditor.Reorder | scripts/superdesk-ingest/module.js:944-946 | The list becomes the splice-move of `start` to `end`. The open rule is unchanged. |
| RoutingContent.SchemeEditor.Save | scripts/superdesk-ingest/module.js:843-858 | The list becomes the placed, filtered and stripped list. An open rule that is still listed loses its `filterName` too. |
| RoutingContent.SchemeEditor.Cancel | scripts/superdesk-ingest/module.js:874-881 | No scheme and no rule is open any more. |
| Lists.Move | scripts/superdesk-ingest/module.js:944-946 | The list keeps its length, and the moved element sits at the clamped `end` of the shortened list. |
| Lists.MoveSpec | scripts/superdesk-ingest/module.js:944-946 | The splice-move is a permutation. The moved rule lands at the clamped `end`, and the others keep their relative order. |
| Lists.MoveBack | scripts/superdesk-ingest/module.js:944-946 | Dragging the moved rule back to `start` restores the list. |
| RuleSets.RemoveRewritesCounts | scripts/superdesk-ingest/module.js:774-776 | `_.remove(rules, rule)` takes out every rewrite the removed one matches and nothing else (as multisets). |
| RuleSets.RewriteMatchesCases | scripts/superdesk-ingest/module.js:774-776 | With both texts set, a rewrite matches exactly when it is equal. With the new text missing, every rewrite with the same old text matches. |
| RuleSets.RuleSetEditor.constructor | scripts/superdesk-ingest/module.js:722-723 | No rule set is open at first. |
| RuleSets.RuleSetEditor.Edit | scripts/superdesk-ingest/module.js:729-733 | The open set is the rule set with its rules, or with an empty list. |
| RuleSets.RuleSetEditor.Cancel | scripts/superdesk-ingest/module.js:751-753 | No rule set is open. |
| RuleSets.RuleSetEditor.AddRule | scripts/superdesk-ingest/module.js:778-783 | A blank `{old: null, new: null}` rewrite goes last, and a missing list is created first. |
| RuleSets.RuleSetEditor.RemoveRule | scripts/superdesk-ingest/module.js:774-776 | Every rewrite the clicked one matches leaves the list: with both texts set that is every equal rewrite, and a rewrite with no `new` key removes every one with the same old text (and one with no `old` key every one with the same new text). A missing list stays missing. |
| RuleSets.RuleSetEditor.Reorder | scripts/superdesk-ingest/module.js:785-787 | The rewrites become the splice-move of `start` to `end`. |
| RoutingFilter.Escape | scripts/superdesk-ingest/module.js:1016-1018 | The escaped text is one character longer per special character, and a text without special characters is left as it is. |
| RoutingFilter.EscapeRoundTrip | scripts/superdesk-ingest/module.js:1016-1018 | The escaped term, read back as a regular expression, stands for exactly the term. |
| RoutingFilter.MatchingFilters | scripts/superdesk-ingest/module.js:1056-1065 | Every listed filter is a known filter whose name contains the term, ignoring case, and every such filter is listed. |
| RoutingFilter.EmptySearchMatchesAll | scripts/superdesk-ingest/module.js:1056-1065 | An empty term lists every filter, in order. |
| RoutingFilter.SearchIgnoresCase | scripts/superdesk-ingest/module.js:1056-1065 | The search finds the same filters whatever the case of the term. |
| RoutingFilter.SearchFindsLiteralMatch | scripts/superdesk-ingest/module.js:1056-1065 | A filter whose name contains the term as typed is listed. |
| RoutingFilter.SelectedFilterFoundAgain | scripts/superdesk-ingest/module.js:1030-1040 | When a rule is reopened, `init` selects the filter the rule's filter id names, unless an earlier filter shares that id. |
| RoutingFilter.FilterTab.constructor | scripts/superdesk-ingest/module.js:1030-1042 | The tab starts with no matches, no search term, and the open rule's filter selected. |
| RoutingFilter.FilterTab.Init | scripts/superdesk-ingest/module.js:1030-1040 | Matches and search term are cleared, and the open rule's filter is selected again. |
| RoutingFilter.FilterTab.SearchFilters | scripts/superdesk-ingest/module.js:1056-1065 | The matches are the filters whose names contain the term, ignoring case. |
| RoutingFilter.FilterTab.SelectFilter | scripts/superdesk-ingest/module.js:1074-1079 | The open rule, and its entry in the list, take the filter's id and name. The search term is cleared. |
| RoutingFilter.FilterTab.ClearSelectedFilter | scripts/superdesk-ingest/module.js:1086-1090 | Nothing is selected, and the open rule's filter and filter name are null in the list too. |
| RoutingActionTab.RemoveIdenticalRemovesOne | scripts/superdesk-ingest/module.js:1167-1171 | Removing by identity takes out exactly that entry, even when another entry has the same content. |
| RoutingActionTab.TargetLabels | scripts/superdesk-ingest/module.js:1149-1152 | One label per target type, and "Not " is put before the types that are NOT denied. |
| RoutingActionTab.SubscriberNames | scripts/superdesk-ingest/module.js:1144 | The subscribers' names, in order. |
| RoutingActionTab.MacroSegment | scripts/superdesk-ingest/module.js:1138-1142 | The macro's label when a macro is set, " - " otherwise. |
| RoutingActionTab.SubscriberSegment | scripts/superdesk-ingest/module.js:1143-1147 | The subscribers' names joined by "," when there are any, " - " otherwise. |
| RoutingActionTab.ActionParts | scripts/superdesk-ingest/module.js:1134-1154 | Desk, stage, the macro segment and the subscriber segment, in that order. The target-type labels, joined by ",", come fifth exactly when the action has target types. |
| RoutingActionTab.ActionString | scripts/superdesk-ingest/module.js:1133-1158 | A description exists exactly when desk and stage are both known, and it starts "desk / stage / ". |
| RoutingActionTab.ActionStringText | scripts/superdesk-ingest/module.js:1133-1158 | The whole description: desk, stage, macro segment and subscriber segment joined by " / ", then " / " and the target-type labels when there are target types. |
| RoutingActionTab.ActionStringPlain | scripts/superdesk-ingest/module.js:1133-1158 | With no macro, subscribers or types, the text is "desk / stage /  -  /  - ". |
| RoutingActionTab.ActionStringTargetType | scripts/superdesk-ingest/module.js:1148-1156 | With one target type, the text is "desk / stage /  -  /  -  / " and then the type: a denied type by its name, an allowed one as "Not " followed by its name. |
| RoutingActionTab.ActionsTab.constructor | scripts/superdesk-ingest/module.js:1101-1102 | Both drafts start as new empty objects. |
| RoutingActionTab.ActionsTab.AddFetch | scripts/superdesk-ingest/module.js:1160-1165 | With desk and stage set, the draft is appended to the open rule's fetch actions and a new empty draft starts. Otherwise nothing changes. |
| RoutingActionTab.ActionsTab.AddPublish | scripts/superdesk-ingest/module.js:1173-1180 | The same for publish actions. The new draft has empty subscriber and type lists. |
| RoutingActionTab.ActionsTab.RemoveFetch | scripts/superdesk-ingest/module.js:1167-1171 | The open rule's fetch actions lose the entries that are that object. |
| RoutingActionTab.ActionsTab.RemovePublish | scripts/superdesk-ingest/module.js:1182-1186 | The open rule's publish actions lose the entries that are that object. |
| IngestSources.Lookup | scripts/superdesk-ingest/module.js:526-529 | `obj[k]` has a value exactly when the object has the key. |
| IngestSources.Put | scripts/superdesk-ingest/module.js:523 | Writing a key keeps the keys distinct and adds exactly that key. |
| IngestSources.PutValue | scripts/superdesk-ingest/module.js:523 | After the write, the key holds the new value and every other key holds what it held before. |
| IngestSources.PutPlaces | scripts/superdesk-ingest/module.js:523 | No key moves: an existing key keeps its place, other pairs are untouched, and a new key is appended. |
| IngestSources.ExtendValue | scripts/superdesk-ingest/module.js:523 | After `_.extend(obj, item)`, each key of the item holds the item's value, and every other key keeps its own. |
| IngestSources.MergeAll | scripts/superdesk-ingest/module.js:519-524 | Merging the stored alias objects gives an object with distinct keys. |
| IngestSources.MergeAllLastWins | scripts/superdesk-ingest/module.js:519-524 | Each key of the merged object holds the value from the last stored object that has the key. |
| IngestSources.MergeAllAbsent | scripts/superdesk-ingest/module.js:519-524 | A key no stored object has is not in the merged object. |
| IngestSources.MergeAliases | scripts/superdesk-ingest/module.js:521-524 | The loop builds exactly the merged object, each stored alias object extending it in turn. |
| IngestSources.AliasRows | scripts/superdesk-ingest/module.js:526-529 | The loop pushes one row per key of the merged object, in key order. |
| IngestSources.AsAliases | scripts/superdesk-ingest/module.js:526-529 | One row per key, in key order, holding the key and its alias. |
| IngestSources.SaveThenEditRoundTrip | scripts/superdesk-ingest/module.js:518-529 | Complete rows with distinct field names, saved and then opened again, come back as the same rows in the same order. |
| IngestSources.SelectedNamesChosen | scripts/superdesk-ingest/module.js:595-599 | A field is selected exactly when some row has chosen it. |
| IngestSources.NotSelectedMembers | scripts/superdesk-ingest/module.js:592-606 | A field is offered exactly when it is a content field that no row has chosen. |
| IngestSources.EditSelectionAgrees | scripts/superdesk-ingest/module.js:531-535 | The fields `edit` leaves unselected are the ones `fieldSelectionChanged` would compute from the rows `edit` builds. |
| IngestSources.EditCopy | scripts/superdesk-ingest/module.js:507-515 | The copy has an update schedule and an idle time. Missing ones take the defaults (5 minutes, 0 hours 0 minutes), existing ones are kept, and nothing else changes. |
| IngestSources.EditCopyIdempotent | scripts/superdesk-ingest/module.js:507-515 | Opening the copy again gives the same copy. |
| IngestSources.RssConfig | scripts/superdesk-ingest/module.js:555-561 | Without authentication the username and password become null. With it the configuration is unchanged. |
| IngestSources.SavedProvider | scripts/superdesk-ingest/module.js:631-646 | The saved provider stores one alias object per complete row (when it has a configuration) and drops its error lists. Nothing else changes. |
| IngestSources.IndexOf | scripts/superdesk-ingest/module.js:669 | `indexOf`: the first position of the type, or -1 exactly when it is absent. |
| IngestSources.Toggle | scripts/superdesk-ingest/module.js:664-675 | One copy of the type goes when it is listed, or one is added when it is not; no other type's count changes. |
| IngestSources.ToggleFlips | scripts/superdesk-ingest/module.js:664-675 | For a type listed at most once, toggling flips whether it is listed, and leaves every other type as it was. |
| IngestSources.ToggleTwice | scripts/superdesk-ingest/module.js:664-675 | Adding an unlisted type and toggling it again restores the list. |
| IngestSources.HasFileTypeAfterToggle | scripts/superdesk-ingest/module.js:664-686 | `addOrRemoveFileType(t)` flips `hasFileType(t)` and no other type's answer. |
| IngestSources.CurrentService | scripts/superdesk-ingest/module.js:709-711 | The found service is the first one whose `value` is the provider's feeding service. None is found exactly when no service has it. |
| IngestSources.InitialConfigOfService | scripts/superdesk-ingest/module.js:691-707 | A provider whose feeding service is listed starts from that service's configuration (or `{}`) and shows its template. |
| IngestSources.ProviderForm.constructor | scripts/superdesk-ingest/module.js:419-430 | No provider is open, there are no alias rows, and every content field is offered. |
| IngestSources.ProviderForm.Edit | scripts/superdesk-ingest/module.js:504-536 | The provider or `{}` is remembered, and its copy with defaults is edited. There is one alias row per key of the merged stored aliases, and the content fields without an alias are offered. |
| IngestSources.ProviderForm.Cancel | scripts/superdesk-ingest/module.js:538-541 | No provider is open. The alias rows stay. |
| IngestSources.ProviderForm.SetConfig | scripts/superdesk-ingest/module.js:543-545 | The edited provider takes the other's configuration and nothing else. |
| IngestSources.ProviderForm.SetRssConfig | scripts/superdesk-ingest/module.js:555-561 | The edited provider takes the configuration with its credentials cleared unless authentication is required. |
| IngestSources.ProviderForm.InitProviderConfig | scripts/superdesk-ingest/module.js:691-698 | The configuration becomes a copy of the current feeding service's, or `{}`. |
| IngestSources.ProviderForm.ConfigTemplateUrl | scripts/superdesk-ingest/module.js:704-707 | The current feeding service's template, or "". |
| IngestSources.ProviderForm.AddFieldAlias | scripts/superdesk-ingest/module.js:568-570 | An empty row is appended. |
| IngestSources.ProviderForm.RemoveFieldAlias | scripts/superdesk-ingest/module.js:579-584 | The row goes, and its field, when one was chosen, is offered again at the end. |
| IngestSources.ProviderForm.FieldSelectionChanged | scripts/superdesk-ingest/module.js:592-606 | The offered fields are the content fields, in order, that no row has chosen. |
| IngestSources.ProviderForm.AvailableFieldOptions | scripts/superdesk-ingest/module.js:621-629 | The offered fields, then, last, the row's own choice when it has one. |
| IngestSources.ProviderForm.Save | scripts/superdesk-ingest/module.js:631-646 | The edited provider becomes what `save` sends. |
| IngestSources.ProviderForm.AddOrRemoveFileType | scripts/superdesk-ingest/module.js:664-675 | The content types, created when missing, lose the first copy of the type, or gain it at the end. |
| Dashboard.ExtendKeysSpec | scripts/superdesk-ingest/module.js:81-89 | After the first keys are written, each is set from `src` or the default, and the others keep `dest`'s value. |
| Dashboard.ExtendedSpec | scripts/superdesk-ingest/module.js:81-89 | Every default key is set, from `src` when `src` has it and from the defaults otherwise. Every other key of `dest` is left untouched. |
| Dashboard.ExtendedIdempotent | scripts/superdesk-ingest/module.js:81-89 | Extending twice from the same source is extending once. |
| Dashboard.ForcedExtend | scripts/superdesk-ingest/module.js:81-89 | The loop writes exactly the extended object into `dest`. |
| Dashboard.FindUserProvider | scripts/superdesk-ingest/module.js:155-157 | The found preference is the first one with the provider's `_id`. None is found exactly when no preference has it. |
| Dashboard.UnlistedProviderGetsDefaults | scripts/superdesk-ingest/module.js:154-161 | A provider the user did not choose is hidden and gets the default settings. |
| Dashboard.ApplyDashboardPreferences | scripts/superdesk-ingest/module.js:150-161 | Every provider gets `dashboard_enabled` and the settings of its preference, or the defaults. Preferences that are not a list count as none. |
| Dashboard.Pick | scripts/superdesk-ingest/module.js:1256 | `_.pick` keeps exactly the `_id` and the default keys the item has, with their values. |
| Dashboard.PickPreferences | scripts/superdesk-ingest/module.js:1254-1258 | One record is stored per shown provider. |
| Dashboard.PickPreferencesInOrder | scripts/superdesk-ingest/module.js:1254-1258 | The stored records are the picked settings of the shown providers, in the providers' order. |
| Dashboard.PickPreferencesShown | scripts/superdesk-ingest/module.js:1254-1258 | Every shown provider's picked settings are stored, and every stored record comes from a shown provider. |
| Dashboard.PickKeepsId | scripts/superdesk-ingest/module.js:1256 | Picking keeps the `_id`. |
| Dashboard.FindSavedPreferences | scripts/superdesk-ingest/module.js:155-157 | For a shown provider whose `_id` no other provider has, the fetch finds exactly its own saved settings. |
| Dashboard.ExtendedWithOwnSettings | scripts/superdesk-ingest/module.js:160 | Extending a provider that has every setting with its own picked settings leaves it as it was. |
| Dashboard.ShownWithOwnSettings | scripts/superdesk-ingest/module.js:154-161 | A shown provider whose saved record is its own picked settings reads back as it was. |
| Dashboard.PreferencesRoundTrip | scripts/superdesk-ingest/module.js:145-161 | In a list of providers with distinct `_id`s, each shown provider with all its settings reads back exactly as it was after the preferences are saved and fetched again. |
| Dashboard.IsIdle | scripts/superdesk-ingest/module.js:1372-1386 | An idle provider has a last item, is open, has an idle time, and now is past the last item plus that time. |
| Dashboard.NeverIdle | scripts/superdesk-ingest/module.js:1372-1386 | A provider with no last item, a closed one, or one with idle time 0h 0m is never idle. |
| Dashboard.IdleExactlyAfterDeadline | scripts/superdesk-ingest/module.js:1372-1386 | Otherwise it is idle exactly when now is later than the last item plus the idle hours and minutes. |
| Dashboard.IdleStaysIdle | scripts/superdesk-ingest/module.js:1372-1386 | Once idle, a provider stays idle as time passes. |
| TextFilters.Amount | scripts/superdesk-ingest/module.js:1433 | The part is empty exactly when the number is not positive. |
| TextFilters.AmountReadsBack | scripts/superdesk-ingest/module.js:1433-1435 | A positive part reads back as its number followed by the unit word, singular exactly when the number is 1. |
| TextFilters.ScheduleText | scripts/superdesk-ingest/module.js:1429-1439 | The text is empty exactly when the input is not an object or neither minutes nor seconds are positive. Without minutes it is the seconds part alone. |
| TextFilters.DefaultScheduleText | scripts/superdesk-ingest/module.js:1429-1439 | The default schedule reads "5 minutes ", with the trailing space. |
| TextFilters.ScheduleTextTrailingSpace | scripts/superdesk-ingest/module.js:1433-1435 | Whole minutes and no seconds leave a trailing space. |
| TextFilters.ScheduleTextMinutesRoundTrip | scripts/superdesk-ingest/module.js:1433-1435 | The number of minutes can be read back from the start of the text. It is followed by " minute" exactly for one minute (" minutes" otherwise), a space and the seconds part. |
| TextFilters.ScheduleTextSecondsOnly | scripts/superdesk-ingest/module.js:1433-1435 | Without minutes, the text is the number of seconds and " second" exactly for one second, " seconds" otherwise. |
| TextFilters.Insert | scripts/superdesk-ingest/module.js:1229-1236 | The addition appears whole, right after the text before the location. The result is never longer than text plus addition. A location that is not negative loses nothing: taking the addition out gives the text back. |
| TextFilters.InsertInside | scripts/superdesk-ingest/module.js:1229-1236 | Inside the text the addition goes before the character at the location, and taking it out gives the input back. |
| TextFilters.InsertAtZeroAppends | scripts/superdesk-ingest/module.js:1231 | A missing location or location 0 appends. |
| TextFilters.InsertPastEndAppends | scripts/superdesk-ingest/module.js:1229-1236 | A location past the end appends. |
| TextFilters.InsertNegativeDropsPrefix | scripts/superdesk-ingest/module.js:1229-1236 | A negative location keeps only the addition and the text from that position counted from the end. |
| Subjects.Path | scripts/superdesk-ingest/module.js:204-210 | A subject without a parent has the empty path. A parent missing from the lookup gives no path. A subject with a parent has a path ending in " / ". |
| Subjects.PathHasAncestors | scripts/superdesk-ingest/module.js:204-210 | Every path is the names along an ancestor chain that revisits no qcode. |
| Subjects.PathFollowsAncestors | scripts/superdesk-ingest/module.js:204-210 | Along a parent chain without repeats, the path is the ancestors' names, root first, each followed by " / ". |
| Subjects.SelfParentHasNoPath | scripts/superdesk-ingest/module.js:204-210 | A subject that is its own parent has no path: the source's recursion exhausts the stack and throws. |
| Subjects.IndexLast | scripts/superdesk-ingest/module.js:195-197 | Each qcode maps to the last subject listed with it. |
| Subjects.EntriesComplete | scripts/superdesk-ingest/module.js:198-200 | When every path resolves, there is one entry per subject, in order, with its path. |
| Subjects.SubjectService.constructor | scripts/superdesk-ingest/module.js:181-182 | The lookup and the subject list start empty. |
| Subjects.SubjectService.Process | scripts/superdesk-ingest/module.js:192-203 | The lookup is indexed, and the entries are appended up to the first path that fails. `ok` is true exactly when every path resolves. |
| Send.GetData | scripts/superdesk-ingest/module.js:1665-1679 | The desk is kept as given. The stage and the macro are included exactly when they are set. |
| Send.Dispatch | scripts/superdesk-ingest/module.js:1648-1663 | Ingested items are fetched; other items are moved when unlocked and left alone when locked. Each request carries the same data. |
| Send.FetchErrorMessage | scripts/superdesk-ingest/module.js:1615-1618 | The message starts "Failed to fetch the item", and the server's message, when defined, follows ": ". |
| Send.AfterSendOne | scripts/superdesk-ingest/module.js:1605-1627 | On success the item records the task id and archive time. On failure it records the error. The archiving flag is cleared either way. |
| Send.SendOneAsTouchesOnlyArchived | scripts/superdesk-ingest/module.js:1648-1663 | `sendOneAs` changes nothing of the item but `archived`, and only for an ingested item. |
| Send.SendOne | scripts/superdesk-ingest/module.js:1605-1627 | It sends a fetch to the current desk, updates the item as `AfterSendOne` says, and gives a notice exactly on failure. |
| Send.SendAll | scripts/superdesk-ingest/module.js:1634-1636 | Every item is updated as by `sendOne` with its own outcome. |
| Send.SendOneAs | scripts/superdesk-ingest/module.js:1648-1663 | The request is the three-way dispatch on the built data, and the item changes as stated. |
| Send.SendService.constructor | scripts/superdesk-ingest/module.js:1594 | No request is pending. |
| Send.SendService.SendAllAs | scripts/superdesk-ingest/module.js:1692-1694 | A new pending request takes the single slot. |
| Send.SendService.GetConfig | scripts/superdesk-ingest/module.js:1708-1710 | It returns the slot. |
| Send.SendService.Resolve | scripts/superdesk-ingest/module.js:1694-1700 | Resolving empties the slot and sends every item of the request with the same configuration, in order. |
| RemoveIngested.Indexed | scripts/superdesk-ingest/module.js:1728-1730 | The recorded providers are the earlier ones and every listed one. |
| RemoveIngested.IndexedLast | scripts/superdesk-ingest/module.js:1728-1730 | A listed provider's flag is the one its last listing carries. |
| RemoveIngested.IndexedUnlisted | scripts/superdesk-ingest/module.js:1728-1730 | An unlisted provider keeps the flag it had. |
| RemoveIngested.CanRemoveAfterFetch | scripts/superdesk-ingest/module.js:1724-1746 | After a fetch, an item from a listed provider can be removed exactly when that provider allows it. |
| RemoveIngested.CanRemoveUnlisted | scripts/superdesk-ingest/module.js:1724-1746 | An item from an unlisted provider keeps what earlier fetches recorded. |
| RemoveIngested.CanRemove | scripts/superdesk-ingest/module.js:1744-1746 | A removable item names a recorded provider, and an item without a provider is never removable. |
| RemoveIngested.NoProviderNoRemove | scripts/superdesk-ingest/module.js:1744-1746 | An item with no provider can never be removed. |
| RemoveIngested.RemoveIngestedService.constructor | scripts/superdesk-ingest/module.js:1719 | No provider is recorded. |
| RemoveIngested.RemoveIngestedService.FetchProviders | scripts/superdesk-ingest/module.js:1724-1733 | The map records every listed provider's flag, with later listings winning. |
| RemoveIngested.RemoveIngestedService.CanRemoveItem | scripts/superdesk-ingest/module.js:1744-1746 | The answer is `canRemove` on the recorded flags. |
| MultiImageEdit.Shown | scripts/apps/search/services/MultiImageEditService.js:59-75 | `compare` gives the first image's value or "", and a single image's own value. |
| MultiImageEdit.ShownSpec | scripts/apps/search/services/MultiImageEditService.js:59-75 | The value is shown when every image has it, and "" as soon as one image has another. |
| MultiImageEdit.FormUpToSpec | scripts/apps/search/services/MultiImageEditService.js:46-57 | After the first n fields, the form holds exactly those fields, each with what `compare` gives. |
| MultiImageEdit.FormShowsSharedValues | scripts/apps/search/services/MultiImageEditService.js:46-75 | The form has exactly the eight keys. Each holds the value every image shares, or "" when they differ. |
| MultiImageEdit.MarkUpToSpec | scripts/apps/search/services/MultiImageEditService.js:46-75 | After the first n fields, exactly the differing ones among them are marked; other placeholders are kept. |
| MultiImageEdit.PlaceholdersMarkDisagreement | scripts/apps/search/services/MultiImageEditService.js:68-74 | Exactly the fields the images disagree on get "(multiple values)". No placeholder is ever cleared. |
| MultiImageEdit.OneImageShowsItself | scripts/apps/search/services/MultiImageEditService.js:59-75 | A single image shows its own values, and no placeholder is added. |
| MultiImageEdit.Merged | scripts/apps/search/services/MultiImageEditService.js:29 | Each dirty field the form defines overwrites the item's. All else is kept. |
| MultiImageEdit.MergedIdempotent | scripts/apps/search/services/MultiImageEditService.js:26-32 | Merging the dirty fields twice is merging once. |
| MultiImageEdit.WithoutId | scripts/apps/search/services/MultiImageEditService.js:20 | Every image with that `_id` is removed and all others are kept. |
| MultiImageEdit.Image.constructor | scripts/apps/search/services/MultiImageEditService.js:11-12 | A copied image holds the given id and metadata and is selected. |
| MultiImageEdit.ImageEditor.constructor | scripts/apps/search/services/MultiImageEditService.js:11-15 | `origin` and `images` are separate copies of the data, and nothing is dirty. The form and placeholders are what `updateMetadata` gives. |
| MultiImageEdit.ImageEditor.Compare | scripts/apps/search/services/MultiImageEditService.js:59-75 | The result is the shared value or "". The field is marked exactly when the images differ. |
| MultiImageEdit.ImageEditor.UpdateMetadata | scripts/apps/search/services/MultiImageEditService.js:46-57 | The form becomes the eight `compare` results, and the placeholders are marked in key order. |
| MultiImageEdit.ImageEditor.SelectImage | scripts/apps/search/services/MultiImageEditService.js:17-24 | The image's flag flips. An unselected image's `_id` leaves the selection; a selected one is appended once. The form is refilled, and an empty selection leaves form and placeholders unchanged. |
| MultiImageEdit.ImageEditor.OnBlur | scripts/apps/search/services/MultiImageEditService.js:26-32 | Only the originals whose `_id` is selected change, and only on the dirty fields, from the form. |
| MarkedDesks.GetMarkedDesks | scripts/apps/search/components/MarkedDesksInfo.jsx:60-73 | The list is empty when the check is not allowed. Otherwise a non-empty `archive_item.marked_desks` comes first, then the item's own list, or []. |
| MarkedDesks.BellShownWhen | scripts/apps/search/components/MarkedDesksInfo.jsx:75-87 | The bell shows exactly when the check is allowed and the archived copy or the item lists a marked desk. |
| MarkedDesks.Mount | scripts/apps/search/components/MarkedDesksInfo.jsx:22-25 | The menu starts closed. |
| MarkedDesks.Toggle | scripts/apps/search/components/MarkedDesksInfo.jsx:50-58 | The other menus are closed, the dropdown shows the marked desks, and the menu is open. |
| MarkedDesks.SetActionMenuState | scripts/apps/search/components/MarkedDesksInfo.jsx:46-48 | Only the menu flag changes. |
| MarkedDesks.ReceiveProps | scripts/apps/search/components/MarkedDesksInfo.jsx:39-44 | An open menu is closed, with every other menu, exactly when a different item arrives. |
| MarkedDesks.UnmountClosesMenus | scripts/apps/search/components/MarkedDesksInfo.jsx:33-37 | Unmounting closes the actions menus exactly when this menu is open. |
| MarkedDesks.ToggleThenUnmount | scripts/apps/search/components/MarkedDesksInfo.jsx:33-58 | A menu opened by `toggle` closes the menus on unmount; one closed again through `setActionMenuState(false)` does not. |
| MarkedDesks.SameItemKeepsMenu | scripts/apps/search/components/MarkedDesksInfo.jsx:39-44 | The same item arriving again changes nothing. |
| MarkedDesks.ToggleThenReceive | scripts/apps/search/components/MarkedDesksInfo.jsx:39-58 | A toggled menu stays open for the same item, and closes when another item arrives. |
| MarkedDesks.ClosedMenuStaysClosed | scripts/apps/search/components/MarkedDesksInfo.jsx:33-44 | Only `toggle` opens the menu. New props and unmounting never close menus for a closed one. |

## Left out

- Server calls, notifications, confirmation dialogs, `$location`, `$rootScope` events and `preferencesService` are not modelled. Their results (lists, outcomes, the current time in minutes) are parameters. After `sendOneAs`, opening the authoring view is left out. `multi.reset()`, which clears the search list's multi-selection in `sendOne` and `sendAllAs`, is not modelled.
- The dashboard pie chart, `IngestListController`, rule evaluation and schedule checks (the schedule directive has an empty link), and the schemes' list refresh are not modelled.
- MultiImageEdit `save` (`authoring.save`), `$modal.open` and the validator are not modelled. `isDirty` is written by the view, so it is a field with no method.
- The marked-desks `renderDropdown`, `closeActionsMenu`, `renderToBody` and the DOM are left out. They appear only as the `closeMenus` and `dropdown` effects of a step, and `isCheckAllowed` is a boolean parameter.
- ActionsTab.FillFetchDraft and ActionsTab.FillPublishDraft stand for the form's input bindings, which the template makes.
- MultiImageEdit.ImageEditor.UpdateMetadata: the eight `compare` calls of the object literal are written as a loop over the eight keys. The calls are the same and in the same order, and the form is assigned once at the end.
- MultiImageEdit.ImageEditor.SelectImage: when no image is left selected, the source throws inside `compare`; the model returns `ok` false instead. The constructor requires at least one image for the same reason.
- Subjects.SubjectService.Process: a missing parent throws a TypeError, and a parent cycle exhausts the stack and throws a RangeError. Both give `ok` false, after the entries before the failing one.
- RoutingFilter.FilterTab.SearchFilters: the regular expression is modelled as a case-insensitive literal substring search. Case folding is ASCII only.
- RoutingRules.Matches: lodash skips the keys the pattern lacks, and that is modelled. Its partial matching of nested arrays (a shorter pattern array matching a longer one) is modelled as equal content.
- RoutingContent.SchemeEditor.Edit: `_.clone` of the scheme keeps only the rule list, and the scheme's other fields are not modelled.
- RuleSets.RuleSetEditor.Edit, RuleSets.RuleSetEditor.RemoveRule, RuleSets.RuleSetEditor.AddRule, RuleSets.RuleSetEditor.Reorder and RuleSets.RuleSetEditor.Cancel: `edit` gives the open rule set the listed rule set's own `rules` array whenever it has one, an empty one included. So `removeRule`, `addRule` and `reorder` change the listed rule set's rules in place, and `cancel`, which only clears the open rule set, does not undo them. The model copies the list, so the listed rule set stays unchanged until `save`.
- RuleSets.RuleSetEditor.Edit and IngestSources.ProviderForm.Edit: the `_.create` prototype link is modelled as a plain copy.
- IngestSources.ProviderForm.Edit: a `null` configuration (which makes the source throw) is not represented, only a missing one. Notifications and critical errors are not modelled.
- IngestSources.ProviderForm.Edit, IngestSources.ProviderForm.Save and IngestSources.ProviderForm.AddOrRemoveFileType: `edit` gives the edited provider the same `config` and `content_types` objects as the listed provider. So the source's `save` writes `field_aliases` into the listed provider's configuration too, and adding or removing a file type changes the listed provider's list when it had one. `cancel` does not undo either change. The model copies these values, so the remembered provider (and the listed one) stays unchanged.
- IngestSources.ProviderForm.SetRssConfig: the source also clears the credentials on the passed object, which the caller shares. Only the edited provider is modelled.
- RoutingContent.SchemeEditor.Reorder and RuleSets.RuleSetEditor.Reorder require `start` to be inside the list. The source would insert `undefined` otherwise.
- IngestSources.ProviderForm.RemoveFieldAlias requires the index to be inside the list. The source throws otherwise.
- RoutingContent.SchemeEditor.Save requires `ruleIndex` to be at most the length. A larger index would leave holes.
- RoutingActionTab.ActionString requires a set macro to be in the macro lookup. The source throws otherwise.
- Send.SendAll, Send.SendService.Resolve and Dashboard.ApplyDashboardPreferences require the items to be distinct objects.
- Send.SendService.Resolve: the deferred promise is modelled as a pending request with an id. The response's other fields and the `item:update` broadcast are not modelled.
- Dashboard.IsIdle: `moment` arithmetic is modelled in whole minutes.
- The order of keys in maps other than the alias objects is not modelled.
