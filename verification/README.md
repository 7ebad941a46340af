# A verified model of ribat

ribat sits between Docker and its registries. It resolves a mutable tag to a digest, remembers when it
first saw that digest, and lets the pull through only once the digest is old enough, or approved, or
bypassed, and, where the policy asks for it, signed. This project models that machinery in Dafny and
proves what the repository promises about it. `dafny verify dfyconfig.toml` checks everything.

## How the model is laid out

| file | what it models |
|---|---|
| `Prelude.dfy` | options and results; Go's `strings` functions that ribat uses |
| `Regex.dfy`, `Reference.dfy` | regular expressions with their language; image references, their parser and printer |
| `Grammar.dfy`, `Spelling.dfy` | what the four expressions accept, character by character; exactly which texts are references, and to what |
| `Policy.dfy`, `Matcher.dfy` | the policy, its validation, rule matching, overlays, `*` patterns compiled to regular expressions |
| `PolicyLexer.dfy`, `PolicyParser.dfy` | the line functions and the indentation-stack parser of policy files |
| `PolicyKeys.dfy` | every line, key and section of a policy file by its name and place, in every state of the parser |
| `PolicyLines.dfy`, `PolicyLayout.dfy`, `PolicyFile.dfy`, `PolicyRecovery.dfy` | policy files line by line and section by section, and the proof that the parser recovers what they say |
| `PolicyOrder.dfy` | exactly when the order of the parts of a policy file changes the configuration that is loaded |
| `PolicySamples.dfy` | three files: the one that ships with ribat, and two whose default policy follows their rules |
| `Cosign.dfy` | Cosign command lines and cache keys |
| `Tables.dfy`, `Transfer.dfy` | the six SQLite tables and their statements; export and import |
| `Quarantine.dfy` | `Engine.Decide` as a function of the tables, the request and the outside world |
| `Engine.dfy` | the store and the engine as classes whose methods update fields, proved equal to those functions |
| `Verdict.dfy`, `Report.dfy`, `Effects.dfy` | the decision said declaratively, first whether and why it allows, then every field; what a request leaves in the tables |
| `Faults.dfy` | how a request ends when statements fail |
| `Runs.dfy`, `Laws.dfy` | laws of sequential runs: stability, exact deadlines, truncation to seconds |
| `CacheRefinement.dfy` | the cached engine refines an engine without a cache, and exactly when |
| `Machine.dfy`, `Protocol.dfy`, `StableRuns.dfy`, `CacheRuns.dfy`, `Logs.dfy` | the engine as a small-step machine, one store operation a step, with any number of requests and operator commands interleaved; its safety; known digests and the cache in such runs; conservation of the two logs |
| `Records.dfy`, `Operators.dfy`, `Admissions.dfy` | what the logs say, column by column; what operator commands do to the requests after them; both for single requests or runs and over interleavings |
| `ProxyPaths.dfy`, `Gates.dfy`, `Proxy.dfy` | the registry proxy: paths, the gate on blobs, and the server object |
| `Authz.dfy` | the Docker authorization plugin |
| `Challenge.dfy` | bearer challenges |

Every operation that the source runs step by step has a method of the same shape (loops included) that is
proved equal to a specification function; the theorems are about those functions. All lemmas switch
automatic induction off, so each proof is the one that is written down.

The outside world is a parameter: `Call` and `Answers` carry the clock, the registry's answer, the verifier
and, for each SQL statement and for the audit log, whether it fails. Times are nanoseconds since the epoch,
stored times are seconds (`Unix` rounds down, also before the epoch), durations are `int64`, and the
subtraction of two times saturates as Go's does. Row ids come from an AUTOINCREMENT sequence that ignored
and updating inserts advance as well. SHA-256 is a free constructor, so it is taken to have no collisions.
The texts of reasons are a datatype with one constructor for each text that the engine writes.

## Main results

- `Verdicts.DecisionIsVerdict`: for every store and every request without store failures, whether the engine
  allows and why is exactly a declarative verdict about freezes, approvals, bypasses, ages and signatures.
- `Reports.DecisionIsReport`, `Effects.TablesAfter`: every field of that decision, and every table after it.
- `Faults.EndsByFirstFault`, `Faults.FailsClosed`: how every request ends whatever statements fail, and that no failure
  ever allows what the verdict denies.
- `Protocol.AllowedIsGrounded` and `Protocol.AllowedFromEmptyStore`: the security invariant, for every
  interleaving of any number of requests and operator commands, statement by statement.
- `Machine.SoloRefinesDecide`: the machine, run alone, is the engine.
- `CacheRefinement.CachedEngineRefinesUncached`, `CacheRefinement.RefinesIff`, `CacheRefinement.RefinesCommandsIff`:
  caching verifications changes no decision, even when the policy changes between requests; and exactly for which
  verifiers and policies that is so.
- `CacheRuns.LostExactly`, `CacheRuns.NeverLosesIff`, `CacheRuns.AllowedByOwnCommand`: over interleavings,
  exactly which step loses a cached success, exactly when none ever does, and that a required signature is one for
  the request's own command line.
- `StableRuns.KnownDigestDecided`, `StableRuns.OnceDueAllowedInRuns`, `StableRuns.NextAllowedAtInRuns`: over
  interleavings, the exact decision about a known digest, stability, and exact deadlines.
- `Laws.OnceDueAlwaysAllowed`, `Laws.NextAllowedAtIsExact`, `Laws.AgeWithinOneSecond`: stability, exact
  deadlines and the bounds of truncation, over sequential runs.
- `Records.RequestIsOnRecord`, `Records.LogsTellDecisions`, `Logs.LogsConserved`: each request leaves one decision row
  and one audit event that say what it returned, column by column; over interleavings, failures included, both logs
  hold exactly those; and they agree.
- `Operators.FreezeStopsRequests`, `Admissions.OverrideAdmitsRequests`, `Operators.FreezeStopsPulls`,
  `Operators.ApprovalAdmitsPulls`: freezes, approvals and bypasses take effect, also among concurrent requests.
- `Transfer.ExportThenImport`, `Transfer.ImportTwice`, `Transfer.ImportMerges`: round trip, idempotence and
  the exact contents of a merge.
- `Image.CanonicalFixpoint`, `Image.WellFormedIffParsed`, `Spelling.ParsesIff`: parsing and printing references, and
  exactly which texts denote which, down to the characters.
- `PolicyFile.FileIsRead`, `PolicyOrder.LoadsAsWrittenIff`, `PolicyRecovery.LoadRecoversConfig`: what every policy
  file is read as, exactly when the configuration that was written is loaded, and that every configuration can be
  written.
- `Policy.AcceptedIff`, `Matcher.WildcardMeaning`, `Matcher.EffectiveFields`, `Matcher.ValidationSurvivesOverlay`:
  validation, patterns and overlays.
- `Verify.CommandLineIs`, `Verify.CommandsNameTheirDigest`: the command that Cosign is run with, and that it is about
  one digest.
- `Gates.ManifestAnswered`, `Gates.BlobServedIff`, `Gates.LookupsAreExactIff`, `ProxyPaths.AcceptsIff`,
  `ProxyPaths.PathsAgree`, `Requests.DecidesIff`, `Requests.PassesIff`, `Authz.OneImageAnswered`,
  `Authz.AllowIsOnRecord`: the two front ends.
- `Challenge.PartsAreJoined`, `Challenge.ChallengeIsRead`, `Challenge.ChallengeRoundTrip`: splitting and reading challenges
  (sections 5.6.4 and 11.6.1 of RFC 9110).

## Where the code and its documentation differ

The model follows the code.

- docs/content/developer/enforcement-flow.md:20 lets an unknown digest through for a first-seen policy or an
  approval; the code also lets it through for a bypass (internal/quarantine/engine.go:141). The exact condition is
  `Verdicts.NewDigestAllowedIff`; `Verdicts.BypassAdmitsNewDigest` is a store with nothing but a bypass.
- docs/content/developer/storage.md:34 says that an import does not wipe unrelated local state. A local row
  survives exactly if neither its id nor its unique key is that of an imported row (`Transfer.ImportMerges`):
  ids of two stores are not related, so an imported row can displace a local row about something else
  (`Transfer.ImportLiftsFreeze`).
- A section header does not end the last rule of a policy file (internal/policy/config.go:246-252), so a
  `default_policy` section where a rule is open is read into that rule (`PolicyLayout.DefaultSectionGoes`). The
  configuration that was written is loaded if and only if it is valid and no such section says anything that its
  target would not have anyway (`PolicyOrder.LoadsAsWrittenIff`). `PolicySamples.RulesFirstIsMisread` is a file of six
  lines for which this fails; `PolicySamples.ActionSaidAgain` is one with such a section for which it holds.
- docs/content/user/security-model.md:12 is about every pull of a mutable tag, but the authorization plugin decides
  only requests whose path begins with a version (internal/authz/server.go:254-277). `Requests.PassesIff` says which
  requests pass undecided; `Requests.UnversionedPullPasses` is one of them.
- The plugin appends the tag of a query with a colon, whatever it is. Without a slash in the tag, the result parses
  exactly if the tag is one of the grammar, with or without a digest behind it (`Requests.CombinedMeans`); so a pull
  whose tag is a digest is refused (`Requests.DigestAsTagIsRefused`). With a slash, the image is taken for the host of
  a registry (`Requests.SlashInTagIsPort`).
- The proxy and the reference parser disagree about a path exactly if its repository holds `:` or `@`
  (`ProxyPaths.PathsAgree`); `ProxyPaths.NginxDisagrees` is such a path.
- Two policies share a cache key without having the same fields exactly if a field holds a NUL character
  (`Verify.KeyIdentifiesFieldsIff`). Over a set of policies, caching changes no decision of any command if and only if
  no two of them share a key and ask for different command lines of which one can be run
  (`CacheRefinement.RefinesCommandsIff`); `CacheRefinement.NulBreaksRefinement` is a run of two pulls with such
  policies.
- The cached result of a verification can fall back from success to failure. In sequential runs it cannot
  (`Runs.DecideExtends`). Over interleavings it does exactly when a request stores a failing verification under that
  key (`CacheRuns.LostExactly`); two racing requests do (`CacheRuns.RaceLosesSuccess`). With one verifier it never
  happens if and only if no policy fails where another one with its key succeeds (`CacheRuns.NeverLosesIff`).

## Model

| member | source | states |
|---|---|---|
| `Regex.MatchStringDecides` | internal/image/reference.go:16-21 | Matching by derivatives decides membership in the language of the expression, for every expression and every text; the four expressions of the source are instances. |
| `Grammar.RegistryIff` | internal/image/reference.go:16-21 | The expression of registries accepts exactly host names of lower-case letters, digits, dots and dashes, the last two not at the ends, with a colon and a decimal port or without. |
| `Grammar.ComponentIff` | internal/image/reference.go:16-21 | That of path components accepts exactly runs of lower-case letters and digits, separated by one dot, one or two underscores, or dashes. |
| `Grammar.TagIff` | internal/image/reference.go:16-21 | That of tags accepts exactly 1 to 128 letters, digits, underscores, dots and dashes, the first neither a dot nor a dash. |
| `Grammar.DigestIff` | internal/image/reference.go:16-21 | That of digests accepts exactly an algorithm, whose marks are single and each followed by a letter, a colon, and a code that is not empty. |
| `Image.CheckNameSound` | internal/image/reference.go:136-151 | A registry and a repository pass the checks if and only if they lie in the languages of the grammar, component by component. |
| `Image.ParsedIsWellFormed` | internal/image/reference.go:36-86 | Whatever the parser returns is normalized: explicit registry, every part in its grammar, a tag or a digest, flags and canonical form consistent. |
| `Image.PrintThenParse` | internal/image/reference.go:158-167 | Parsing the canonical form of any well-formed reference gives that reference back, with ports, defaults, tags and digests. |
| `Image.WellFormedIffParsed` | internal/image/reference.go:24-86 | The image of the parser is exactly the set of well-formed references. |
| `Image.CanonicalFixpoint` | internal/image/reference.go:36-167 | Whenever an input parses, its canonical form parses to the very same reference. |
| `Image.CanonicalIsInjective` | internal/image/reference.go:158-167 | Two inputs with equal canonical forms denote the same reference. |
| `Spelling.ParsesIff` | internal/image/reference.go:24-152 | A text is a reference if and only if it is a name with a tag, a digest, both or neither, all in the grammar; and which: the registry before the first slash if it has a dot or a colon or is `localhost`, otherwise docker.io, then with `library/` for a single component; `latest` if there is neither tag nor digest. |
| `Spelling.WordDenotes` | internal/image/reference.go:59-134 | Any word of lower-case letters but `localhost` is an official image of docker.io at the tag `latest`. |
| `Spelling.NginxDenotes` | internal/image/reference.go:59-134 | `nginx` is docker.io/library/nginx:latest. |
| `Policy.ValidRule` | internal/policy/config.go:137-149 | If validation accepts the rules, it accepts each of them under its own index. |
| `Policy.AcceptedIff` | internal/policy/config.go:118-201 | A configuration is accepted if and only if its version is 1, its actions are admissible, quarantine has a minimum age, every rule has a pattern and an admissible action if any, and the default and every rule over it name a known Cosign mode and, if a signature is required, the key or exactly one identity. |
| `Policy.RefusalsAreTrue` | internal/policy/config.go:118-149 | A refusal for the version, for the minimum age or for a missing pattern is given exactly or only where that is missing, and the rules before are sound. |
| `Matcher.WildcardMatchLoop` | internal/policy/matcher.go:83-100 | The loop that builds the expression rune by rune computes the match of the compiled text. |
| `Matcher.CompiledWildcard` | internal/policy/matcher.go:84-98 | Every pattern compiles, and to nothing but the anchors, its literal characters and one `.*` for each star. |
| `Matcher.WildcardMeaning` | internal/policy/matcher.go:83-100 | For all patterns and values: a value matches if and only if it is the pattern with each star replaced by text without line ends. |
| `Matcher.WildcardPreservesMeaning` | internal/policy/matcher.go:83-100 | For values without line ends that is the meaning of the pattern itself, with arbitrary text for each star. |
| `Matcher.MatchingNeverFails` | internal/policy/matcher.go:66-81 | The error return of pattern matching is never taken. |
| `Matcher.PatternMeaning` | internal/policy/matcher.go:66-81 | For every pattern, stars included: with a colon and no slash it is matched against the tag alone, otherwise against the whole name, and its stars stand for any text. |
| `Matcher.ExactPattern` | internal/policy/matcher.go:66-81 | A pattern without a star matches exactly one name, or exactly one tag. |
| `Matcher.PrefixPattern` | internal/policy/matcher.go:66-81 | A pattern that ends in its only star matches exactly the names, or the tags, with that prefix. |
| `Matcher.RuleIsAbout` | internal/policy/matcher.go:66-81 | For every well-formed reference: a pattern with a colon and no slash is about the tag, any other about registry, repository, tag and digest as they are written, or the bare name for a digest without a tag. |
| `Matcher.ApplyRule` | internal/policy/matcher.go:36-64 | The assignments through the pointer compute the overlay; its Cosign part is the overlay that validation uses. |
| `Matcher.EffectivePolicyLoop` | internal/policy/matcher.go:16-34 | The loop returns the overlay of the first rule that matches, or the default policy, and never an error. |
| `Matcher.EffectiveFields` | internal/policy/matcher.go:16-64 | Field by field: action, minimum age, first-seen pull and the six Cosign fields are those of the first matching rule if it has them, otherwise of the default policy; the three other actions are the default ones; the matched rule is its pattern, or `default_policy`. |
| `Matcher.ValidationSurvivesOverlay` | internal/policy/config.go:118-201 | If a configuration is accepted, every effective policy passes the Cosign validation and has admissible actions, whatever the reference. |
| `Verify.ValidPolicyHasArgs` | internal/verify/cosign.go:54-88 | For a validated policy that requires Cosign, building the command line fails only on an empty digest. |
| `PolicyLexer.StripComment` | internal/policy/config.go:431-451 | The result is the line up to the first `#` outside quotes, or the whole line. |
| `PolicyLexer.LeadingSpaces` | internal/policy/config.go:453-462 | The number of spaces that the line begins with. |
| `PolicyParser.YamlPolicyParser.Parse` | internal/policy/config.go:221-261 | The parser object reads the lines in order and stops at the first error; its fields end as the specification says. |
| `PolicyParser.YamlPolicyParser.ParseLine` | internal/policy/config.go:226-255 | One line changes paths, current rule and configuration exactly as its token says, or fails with that token's error. |
| `PolicyParser.YamlPolicyParser.ParseListItem` | internal/policy/config.go:263-278 | A list item opens a rule exactly below `rules`. |
| `PolicyParser.YamlPolicyParser.Set` | internal/policy/config.go:280-310 | A value changes exactly the field that its section names, or one of the current rule. |
| `PolicyParser.YamlPolicyParser.SetInRule` | internal/policy/config.go:312-325 | It changes the current rule and no other. |
| `PolicyParser.YamlPolicyParser.Clear` | internal/policy/config.go:411-417 | The deleting loop leaves exactly the paths above the indentation. |
| `PolicyKeys.LineIs` | internal/policy/config.go:226-255 | Every line is nothing, a list item, a section, an entry, or one of two errors, by its text without comment and white space, cut at the first colon. |
| `PolicyKeys.HeaderIsRead` | internal/policy/config.go:243-247 | A section header sets the path of its level, drops the deeper ones and keeps the others. |
| `PolicyKeys.TopIsRead` | internal/policy/config.go:280-310 | In every state: `version`, `audit.path`, `state.backend` and `state.path` set exactly their field; only 64-bit integers are versions. |
| `PolicyKeys.DefaultTagsAreRead` | internal/policy/config.go:327-345 | In every state without an open rule: the three keys below `default_policy.mutable_tags` set exactly their field, or fail on what is no duration or boolean. |
| `PolicyKeys.DefaultActionsAreRead` | internal/policy/config.go:289-297 | So do the three other actions of the default policy. |
| `PolicyKeys.DefaultCosignIsRead` | internal/policy/config.go:367-387 | So do the six keys below `default_policy.signatures.cosign`. |
| `PolicyKeys.ItemIsRead` | internal/policy/config.go:263-278 | An item below `rules` opens a rule with its pattern and nothing else in it. |
| `PolicyKeys.OtherItemIsIgnored` | internal/policy/config.go:263-267 | An item anywhere else changes nothing. |
| `PolicyKeys.RuleTagsAreRead` | internal/policy/config.go:347-365 | The three keys of `mutable_tags` set exactly their field of the open rule. |
| `PolicyKeys.RuleCosignIsRead` | internal/policy/config.go:389-409 | So do the six keys of `signatures.cosign`. |
| `PolicyKeys.AtoiIff` | internal/policy/config.go:286-291 | Versions are numerals, perhaps after a sign, that 64 bits hold, with their decimal value. |
| `PolicyLines.LexesLine` | internal/policy/config.go:419-471 | Each line of the layout is read back: indentation, key and value, bare or in quotes of either kind, whatever the quoted text contains but its quotes and line ends, and whatever comment stands behind it. |
| `PolicyLayout.ReadsDocument` | internal/policy/config.go:221-409 | Every document, with parts, sections and fields absent, repeated or in any order, is read as exactly the configuration that `AsRead` says: each field in its own section and rule, the last value winning, a default policy where a rule is open in that rule; it is rejected exactly if a value is ill-typed. |
| `PolicyLayout.DefaultSectionGoes` | internal/policy/config.go:246-325 | For every section below `default_policy` and every state of the parser: into the default policy if no rule is open, otherwise on top of the open rule with the actions dropped; and only the default policy changes, as written, if and only if no rule is open or the section says nothing new. |
| `PolicyOrder.ConfigReadAsWrittenIff` | internal/policy/config.go:246-282 | The configuration read from a document is the one that was written if and only if, setting by setting, no misplaced default section says last what the default policy does not have without it, and none says in the open rule what that rule does not say itself. |
| `PolicyOrder.LoadsAsWrittenIff` | internal/policy/config.go:105-116 | Loading a well-typed file, in any order, yields the configuration that was written if and only if that is valid and its misplaced sections are harmless in this sense. |
| `PolicySamples.RulesFirstIsMisread` | internal/policy/config.go:246-282 | A file of six lines with a rule before its default policy: the default action lands in the rule, and loading fails for want of a default action. |
| `PolicySamples.ActionSaidAgain` | internal/policy/config.go:246-282 | A file that repeats an action of its default policy after a rule is out of order and still yields the configuration that was written. |
| `PolicyFile.BlankLinesIgnored` | internal/policy/config.go:224-229 | Lines that lex as blank change nothing. |
| `PolicyFile.CommentIsBlank` | internal/policy/config.go:226-229 | An indented comment is such a line. |
| `PolicyFile.FileIsRead` | internal/policy/config.go:221-261 | A file whose significant lines spell a document, comments and blank lines anywhere, is parsed to exactly what the document is read as, or rejected if a value is ill-typed. |
| `PolicyFile.OrderedFileIsRead` | internal/policy/config.go:105-116 | With no default policy where a rule is open, loading gives exactly the configuration that was written, or its validation error, or refuses an ill-typed value. |
| `PolicySamples.SampleLoads` | configs/ribat.example.yaml:1-57 | The shipped file, whose rules have no `signatures`, loads as exactly the configuration it shows, four rules and all, and passes validation. |
| `PolicyFile.Load` | internal/policy/config.go:105-116 | Loading yields a configuration only if it parses and validates, and says which of the two failed. |
| `PolicyRecovery.AtoiOfShowInt` | internal/policy/config.go:286-291 | Decimal notation of every 64-bit integer is read back. |
| `PolicyRecovery.LoadRecoversConfig` | internal/policy/config.go:105-116 | Every configuration whose texts are free of line ends and do not mix both kinds of quotes can be written in the documented order, and loading what was written gives it back, or its validation error. |
| `Verify.BuildCosignArgs` | internal/verify/cosign.go:54-88 | Reassigning the mode and appending the flags computes the specified command line. |
| `Verify.CommandLineIs` | internal/verify/cosign.go:54-92 | Word by word, which command line results, with registry, repository and digest of the image written out, or which error. |
| `Verify.CommandAcceptsIff` | internal/verify/cosign.go:32-52 | The verifier reports success exactly if there is a command line and the command succeeds on it. |
| `Verify.CommandsNameTheirDigest` | internal/verify/cosign.go:54-92 | For well-formed references, equal command lines are about the same registry, repository and digest, whatever the policies: a success for one digest is none for another. |
| `Verify.ArgsDetermineSigner` | internal/verify/cosign.go:54-88 | Policies with the same command line ask for the same key, or for the same issuer and identities. |
| `Verify.SameKeySameArgs` | internal/verify/cosign.go:54-104 | Equal cache keys over NUL-free fields mean equal fields, so equal command lines. |
| `Verify.KeyIdentifiesFieldsIff` | internal/verify/cosign.go:94-104 | The cache key identifies the fields of a policy if and only if none of them contains a NUL. |
| `Verify.KeyIsDigestOf` | internal/verify/cosign.go:94-104 | The key is the digest of mode, key, issuer, identity and identity expression in this order, with NULs between them. |
| `Tables.LatestIdMeaning` | internal/store/sqlite.go:438-470 | `ORDER BY time DESC, id DESC LIMIT 1` is the lexicographic maximum, and exists if a row does. |
| `Tables.SelectLatest` | internal/store/sqlite.go:438-470 | The scan finds it. |
| `Tables.LocalOverrideMeaning` | internal/store/sqlite.go:438-495 | Deny if and only if an unexpired freeze applies; else allow if and only if an approval or a bypass does. |
| `Tables.ReportedRowsAreNewest` | internal/store/sqlite.go:438-470 | The row reported for each kind of override is the lexicographic maximum, by time and id, of its active rows. |
| `Store.SQLiteStore.GetObservation` | internal/store/sqlite.go:227-233 | The row with the key, if there is one. |
| `Store.SQLiteStore.InsertNewObservation` | internal/store/sqlite.go:260-270 | INSERT OR IGNORE: afterwards the key has a row; a row appears only if the key had none, quarantined from now on; every row that was there is unchanged, and the constraints hold. |
| `Runs.InsertObservationExtends` | internal/store/sqlite.go:260-270 | After the insert the row of the key can be read, and every observation keeps its id, key and first-seen time. |
| `Store.SQLiteStore.TouchObservation` | internal/store/sqlite.go:272-281 | Of the row with that id the last-seen time changes and nothing else; no other row changes, none appears or goes; the result tells whether there was one. |
| `Store.SQLiteStore.MarkObservationAllowed` | internal/store/sqlite.go:283-292 | Of the row with that id the last-seen and last-allowed times change and nothing else; no other row changes; the result tells whether there was one. |
| `Store.SQLiteStore.RecordDecision` | internal/store/sqlite.go:294-305 | One row more, under an id that none had: no decision on record is overwritten, and the new one reads back in whole seconds. |
| `Store.SQLiteStore.ApproveDigest` | internal/store/sqlite.go:339-353 | Inserts an approval and returns it as stored, in whole seconds. |
| `Store.SQLiteStore.FreezeTag` | internal/store/sqlite.go:355-369 | Inserts a freeze, NULL standing for an empty digest, and returns it as stored. |
| `Store.SQLiteStore.BypassTag` | internal/store/sqlite.go:371-385 | Inserts a bypass and returns it as stored. |
| `Store.SQLiteStore.ActiveFreeze` | internal/store/sqlite.go:449-459 | The newest unexpired freeze of the tag or of the digest. |
| `Store.SQLiteStore.ActiveApproval` | internal/store/sqlite.go:438-447 | The newest unexpired approval of the digest. |
| `Store.SQLiteStore.ActiveBypass` | internal/store/sqlite.go:461-470 | The newest unexpired bypass of the tag. |
| `Store.SQLiteStore.GetCosignVerification` | internal/store/sqlite.go:411-418 | The cached verification of a key. |
| `Store.SQLiteStore.RecordCosignVerification` | internal/store/sqlite.go:420-436 | ON CONFLICT DO UPDATE: the row keeps its id. |
| `Store.SQLiteStore.ExportState` | internal/store/sqlite.go:497-531 | The six tables in the order of their listings. |
| `Store.SQLiteStore.ImportState` | internal/store/sqlite.go:533-609 | With the step that fails, if any, as an input: it succeeds if and only if the version is 1 and no step of this import fails; then the tables are the specified merge, and otherwise unchanged. |
| `Transfer.OrderIds` | internal/store/sqlite.go:611-633 | The loop lists the ids in the order of the query. |
| `Transfer.ListRows` | internal/store/sqlite.go:611-633 | The scanning loop yields the rows in that order. |
| `Transfer.ExportIsOrdered` | internal/store/sqlite.go:497-531 | An export lists every row of every table exactly once: in ascending order of ids, and the decisions by time and then by id. |
| `Transfer.ImportLoop` | internal/store/sqlite.go:543-600 | The loop of INSERT OR REPLACE statements computes the merge of one table, unless one of its statements fails. |
| `Transfer.ImportRowsMerges` | internal/store/sqlite.go:543-600 | The merge holds exactly the imported rows that no later one displaces, and the old rows that clash with none in id or unique key. |
| `Transfer.ExportThenImport` | internal/store/sqlite.go:497-609 | An empty store that imports an export has the same rows and exports the same state. |
| `Transfer.ImportTwice` | internal/store/sqlite.go:533-609 | Importing twice is importing once, sequences included. |
| `Transfer.ImportMerges` | internal/store/sqlite.go:533-609 | The exact contents of each of the six tables after an import. |
| `Transfer.ObservationStaysIff` | internal/store/sqlite.go:533-609 | A local observation whose id is not imported survives an import if and only if its registry, repository, tag and digest are not imported. |
| `Transfer.VerificationStaysIff` | internal/store/sqlite.go:533-609 | A cached verification whose id is not imported survives if and only if its registry, repository, digest and policy key are not imported. |
| `Transfer.OtherRowsStay` | internal/store/sqlite.go:533-609 | Decisions, approvals, freezes and bypasses whose ids are not imported survive. |
| `Transfer.ImportLiftsFreeze` | internal/store/sqlite.go:574-583 | A store with one freeze that imports a freeze of another tag under the same id: the tag it had frozen is frozen no longer. |
| `Transfer.ImportKeepsValid` | internal/store/sqlite.go:143-224 | An import keeps every constraint of the schema, whatever it imports. |
| `Laws.FreezeTakesEffect` | internal/store/sqlite.go:355-369 | A freeze stops exactly its tag and digest, or every digest of the tag, until the second in which it expires. |
| `Laws.ApprovalTakesEffect` | internal/store/sqlite.go:339-353 | An approval admits exactly its tag and digest, until the second in which it expires. |
| `Laws.BypassTakesEffect` | internal/store/sqlite.go:371-385 | A bypass admits every digest of exactly its tag, until the second in which it expires. |
| `Laws.ExpiryWithinOneSecond` | internal/store/sqlite.go:954-963 | An override is never active at or after its expiry, and always active until a second before. |
| `Engines.Engine.Decide` | internal/quarantine/engine.go:64-173 | The method that parses, matches, resolves and fills in the decision step by step equals the specification, in its result, the tables and the audit log. |
| `Engines.RequestIsDecided` | internal/quarantine/engine.go:64-90 | From the text of a request: one that is no reference is an error and changes nothing; any other is decided under the first rule that matches, with its own user, method and URI, the clock, the answers and the failures as they are. |
| `Engines.Engine.DecideDigest` | internal/quarantine/engine.go:119-172 | The same for a tag that has been resolved: freeze before lookup, lookup before insert. |
| `Engines.Engine.DecideNew` | internal/quarantine/engine.go:135-150 | The same for a digest without a row, with the insert that another request may have won. |
| `Engines.Engine.DecideKnown` | internal/quarantine/engine.go:152-172 | The same for a digest with a row, with its age. |
| `Engines.Engine.DecideDigestPinned` | internal/quarantine/engine.go:175-199 | The same for a pinned digest, which is never observed. |
| `Engines.Engine.AllowVerified` | internal/quarantine/engine.go:201-230 | The row is marked only after a required verification has passed; tables and decision are as specified. |
| `Engines.Engine.VerifySignature` | internal/quarantine/engine.go:232-283 | The verifier is run only on a cache miss, its answer is stored before it is used, and a failing statement denies. |
| `Engines.Engine.RecordOutcome` | internal/quarantine/engine.go:285-324 | The decision row comes first, and the audit event only after it. |
| `Verdicts.DecisionIsVerdict` | internal/quarantine/engine.go:64-283 | For every store and request without store failures: no error, and allowed flag and reason are exactly the declarative verdict about freezes, overrides, ages, policies and signatures. |
| `Reports.DecisionIsReport` | internal/quarantine/engine.go:64-283 | For every store and request without store failures the whole decision: what it is about, first-seen time, age, next allowed time, the three override flags, and whether the signature was verified and cached. |
| `Verdicts.NewDigestAllowedIff` | internal/quarantine/engine.go:135-150 | A digest without a row is allowed if and only if nothing freezes it, a required signature passes, and it is approved, bypassed, or first pulls are permitted. |
| `Verdicts.BypassAdmitsNewDigest` | internal/quarantine/engine.go:141 | On a store with nothing but a bypass of the tag, a digest that was never seen is allowed. |
| `Effects.ResolvedStampsItsRow` | internal/quarantine/engine.go:119-230 | A resolved, unfrozen request stamps exactly the row of its digest, as allowed if and only if it is allowed, and writes no override. |
| `Effects.TablesAfter` | internal/quarantine/engine.go:64-283 | Every table but the decisions after every request: observations change only in the row of a resolved, unfrozen tag; the cache changes only if nothing but a signature is missing, and then by the answer of the verifier under the key and the image of the request; overrides never change. |
| `Effects.VerificationIsCached` | internal/quarantine/engine.go:257-275 | A verification that was run is what the cache then says of its key, and of no other key. |
| `Faults.EndsByFirstFault` | internal/quarantine/engine.go:64-324 | For every set of failing statements: the first that fails on the way of the request decides. An override or observation statement ends it with an error, a cache or mark statement denies it with that reason; without one it is decided by the verdict, and a log that cannot be written is reported beside the decision. |
| `Faults.FailsClosed` | internal/quarantine/engine.go:64-324 | Whatever fails, no request is allowed that the verdict denies. |
| `Runs.DecideExtends` | internal/quarantine/engine.go:64-324 | One request keeps the schema's constraints, every observation's id, key and first-seen time, and every successful verification. |
| `Laws.KnownDigest` | internal/quarantine/engine.go:119-172 | A digest with a row is allowed exactly if it is not frozen and is approved, bypassed or due; a denial says when it is due. |
| `Laws.OnceDueAlwaysAllowed` | internal/quarantine/engine.go:152-172 | Once allowed by age, a digest is allowed for ever, unless frozen, whatever happens in between. |
| `Laws.NextAllowedAtIsExact` | internal/quarantine/engine.go:135-173 | After a denial that reports T, later requests are denied before T and allowed from T on, and report the same T. |
| `Laws.FirstRequestIsStored` | internal/quarantine/engine.go:135-139 | The first request for a digest stores its own start time, rounded down to the second. |
| `Laws.AgeWithinOneSecond` | internal/quarantine/engine.go:163-169 | An allow by age comes less than a second before the minimum age has passed, and never later than that moment. |
| `Operators.CommandTakesEffect` | internal/store/sqlite.go:339-385 | In a sequential run a freeze, approval or bypass is in force exactly for what its row covers, and nothing else changes. |
| `Operators.ActionTakesEffect` | internal/store/sqlite.go:339-385 | The same between the steps of concurrent requests. |
| `Operators.FreezeStopsPulls` | internal/quarantine/engine.go:119-126 | After a freeze no request that asks the store is allowed while it applies, whatever happens in between and whatever fails. |
| `Operators.ApprovalAdmitsPulls` | internal/quarantine/engine.go:135-172 | After an approval a tag at its digest is allowed if and only if it is not frozen and a required signature passes. |
| `Operators.BypassAdmitsPulls` | internal/quarantine/engine.go:135-172 | After a bypass the same holds for every digest of its tag. |
| `Operators.FreezeStopsRequests` | internal/quarantine/engine.go:119-126 | Over all interleavings: no request that starts after a freeze that applies to it is ever allowed, whatever fails. |
| `Admissions.OverrideAdmitsRequests` | internal/quarantine/engine.go:119-172 | Over all interleavings: a request that starts after an approval or a bypass that covers it, and whose signature, if required, is accepted, ends allowed without an error, unless it reads an active freeze. |
| `CacheRefinement.CommandsDependOnArguments` | internal/verify/cosign.go:32-52 | The verifier that runs the command depends on the command line only. |
| `CacheRefinement.CachedEngineRefinesUncached` | internal/quarantine/engine.go:232-283 | From an empty cache, every request of every run is decided as without a cache, in every field but the cached flag, even if the policy changes. |
| `CacheRefinement.RefinesIff` | internal/quarantine/engine.go:232-283 | For one verifier and one set of policies that require signatures: every request of every run is decided as without a cache if and only if, for every image, policies with one key are answered alike. |
| `CacheRefinement.RefinesByArgumentsIff` | internal/verify/cosign.go:54-104 | Every verifier by command line is refined, over a set of policies, if and only if no two of them share a key and have different command lines. |
| `CacheRefinement.RefinesCommandsIff` | internal/verify/cosign.go:32-104 | Every command that refuses arguments with a NUL, as the operating system does, is refined if and only if no two policies share a key and have different command lines of which one can be run. |
| `CacheRefinement.NulBreaksRefinement` | internal/verify/cosign.go:94-104 | A pull is verified with a key `k` under a policy with a NUL for an unused issuer; then the cache admits a pull whose policy names another key, with a NUL, and whose own command cannot be run. |
| `Machine.SoloRefinesDecide` | internal/quarantine/engine.go:64-324 | A request that runs alone through the machine does to the store, and returns, what the engine does. |
| `Protocol.InvariantHolds` | internal/quarantine/engine.go:64-324 | The invariant behind the safety theorem holds after every run of interleaved requests and commands. |
| `Protocol.AllowedIsGrounded` | internal/quarantine/engine.go:64-283 | Core safety over all interleavings: an allow of a pinned digest or of a resolved tag under quarantine means that its own reads found no freeze and found an approval, a bypass, a permitted first pull or a due row, and that, where a signature is required, a verification under its cache key succeeded. |
| `Protocol.AllowedFromEmptyStore` | docs/content/user/security-model.md:12 | From an empty store, age admits a tag only if an earlier, different request resolved the same digest and its start, in seconds, lies the minimum age back. |
| `Protocol.ObservationsOfARun` | internal/store/sqlite.go:227-292 | Over all interleavings: rows keep id, key and first-seen time, keys are unique, every first-seen time is the start of a request that resolved that digest, and no request reads back nothing. |
| `Protocol.LoserReadsWinner` | internal/store/sqlite.go:260-270 | A request whose insert loses the race reads back the winner's row. |
| `StableRuns.KnownDigestDecided` | internal/quarantine/engine.go:119-173 | Over all interleavings: a request that starts when its digest has a row from time t ends denied because it read an active freeze, or allowed because it read an approval or a bypass, or else it is allowed if and only if the row is due, and a denial says when it is. |
| `StableRuns.OnceDueAllowedInRuns` | internal/quarantine/engine.go:152-172 | Over all interleavings: once a request has found a row that was due, every later one about that tag and digest, not under a longer age, is allowed, unless it reads an active freeze itself. |
| `StableRuns.NextAllowedAtInRuns` | internal/quarantine/engine.go:135-173 | Over all interleavings: after a request has reported T, a later one without freeze or override is allowed if and only if it starts at T or after it, and otherwise reports the same T. |
| `CacheRuns.LostExactly` | internal/store/sqlite.go:420-436 | In every state and for every action: a cached success is lost if and only if the action is the write of a failing verification with its key. |
| `CacheRuns.RaceLosesSuccess` | internal/quarantine/engine.go:240-275 | On every store: two requests with one key that both miss, the one that succeeds writing first and the one that fails writing last, lose the success. |
| `CacheRuns.SuccessCanBeLost` | internal/quarantine/engine.go:240-275 | Such a run exists for every pinned image, from the empty store. |
| `CacheRuns.NeverLosesIff` | internal/store/sqlite.go:420-436 | Over all interleavings of requests that ask one verifier under policies of one set that require signatures: no cached success is ever lost if and only if no policy fails where another one with its key succeeds. |
| `CacheRuns.SuccessIsNeverLost` | internal/quarantine/engine.go:240-275 | In particular none is lost with a verifier that answers by command line and policies without NUL. |
| `CacheRuns.AllowedByOwnCommand` | internal/quarantine/engine.go:232-283 | Over all interleavings and whatever the verifiers: a required signature means that some request ran its verifier successfully on this digest with the command line of this request, or that the store held a success before. |
| `CacheRuns.CacheStaysSound` | internal/quarantine/engine.go:257-275 | After every interleaving each cached success is what the one verifier says of some policy of the set with that key. |
| `CacheRuns.HitsAreTrue` | internal/quarantine/engine.go:240-244 | If policies of the set with one key are answered alike: whenever a request of any interleaving hits the cache, running the verifier instead would have succeeded. |
| `CacheRuns.AllowedIsSigned` | internal/quarantine/engine.go:232-283 | So over all interleavings an allowed request that needs a signature passes that verifier with its own policy. |
| `Logs.DecideLogs` | internal/quarantine/engine.go:285-324 | A request without error is about its own image and leaves exactly one decision row and, if audited, one audit event that agree with what it returns; one with an error leaves nothing, but for the row before a failed audit write. |
| `Records.RequestIsOnRecord` | internal/quarantine/engine.go:285-324 | Without an error, one row is added: `allow` if and only if the returned decision allows, otherwise `deny`; its image, digest and reason; user, method and URI of the request; the second of its start. If audited, one event with the same columns, the full time, the matched rule and both Cosign flags. With an error nothing, but for the row before a failed audit write. |
| `Records.LogsTellDecisions` | internal/quarantine/engine.go:285-324 | Over all interleavings, failures included: each row has been added to the decisions as often as requests of the run have recorded just that decision, and to the audit log as often as audited ones of them have ended without an error. |
| `Logs.LogsConserved` | internal/quarantine/engine.go:285-324 | Over all interleavings, if all are audited and no write fails, the new decision rows are, with multiplicity, the new audit events and those still owed. |
| `Logs.LogsAgreeWhenQuiet` | internal/quarantine/engine.go:285-324 | So both logs have gained the same rows whenever no request is between its two writes. |
| `ProxyPaths.NormalizesSpellings` | internal/proxy/server.go:300-315 | Two references are normalized to the same if and only if they are equal or the dash and colon spellings of one 64-digit digest; normalizing again changes nothing. |
| `ProxyPaths.AcceptsIff` | internal/proxy/server.go:239-291 | A path is accepted if and only if it is `/v2/`, a name, the first `/manifests/` or, without one, the first `/blobs/`, and a reference, with slashes around both; names denote what they denote in references, `library/` included. |
| `ProxyPaths.PathsAgree` | internal/proxy/server.go:239-315 | If the reference built from a manifest path parses, registry, repository and tag or digest agree with the path if and only if the repository holds neither `:` nor `@`. |
| `ProxyPaths.NginxDisagrees` | internal/proxy/server.go:239-315 | The path of `library/nginx:1` at any digest is accepted, its reference parses, and the two differ in repository and tag. |
| `Gates.CollectDigests` | internal/proxy/server.go:183-205 | The loop collects the non-empty digests of configuration and layers, in order. |
| `Proxy.Server.HandleV2` | internal/proxy/server.go:63-87 | The handler leaves tables, audit log and gate, and answers, as `Gates.Handle` specifies, whatever the path and the method. |
| `Proxy.Server.ServeManifest` | internal/proxy/server.go:89-128 | Nothing is fetched or remembered before the engine has allowed without error; then exactly the listed blobs are added. |
| `Proxy.Server.ServeBlob` | internal/proxy/server.go:130-147 | A blob is fetched only past the gate. |
| `Proxy.Server.RememberManifestBlobs` | internal/proxy/server.go:164-170 | The loop adds the keys of the listed digests to the set and removes none. |
| `Gates.ManifestAnswered` | internal/proxy/server.go:63-128 | A manifest request asks the engine about the image that its path names. It gets 200 if and only if the engine allows without error and the manifest is fetched, 403 if and only if the engine denies without error, 500 if and only if it fails, 502 otherwise. The tables are as the engine leaves them, and a 200 adds exactly the digests that configuration and layers list. |
| `Gates.BlobAnswered` | internal/proxy/server.go:130-147 | A blob request gets 200 if and only if its registry, repository and digest are in the set and the blob is fetched, 403 if and only if they are not. |
| `Gates.OthersAnswered` | internal/proxy/server.go:63-87 | The version check gets 200, other methods 405 and other paths 404, and nothing changes. |
| `Gates.GateHoldsExposedBlobs` | internal/proxy/server.go:89-177 | After any run the set holds exactly the keys of the blobs exposed by allowed manifest requests. |
| `Gates.ExposingRequest` | internal/proxy/server.go:89-128 | Each of them was exposed by a particular earlier request: allowed without error, same registry and repository, and a fetched manifest that lists the digest. |
| `Gates.GateGrows` | internal/proxy/server.go:164-170 | The set only grows. |
| `Gates.GateIsExact` | internal/proxy/server.go:172-181 | Looking up the joined string is looking up the triple, for all lookups, if and only if no exposed digest holds a line end. |
| `Gates.LookupsAreExactIff` | internal/proxy/server.go:130-181 | Over the lookups that blob paths can make, the string test admits exactly the exposed blobs if and only if no exposed digest has a line end before its last character. |
| `Gates.ServedBlobsWereExposed` | internal/proxy/server.go:130-147 | A blob is served only if a blob with its key was exposed. |
| `Gates.BlobServedIff` | internal/proxy/server.go:130-147 | After any run a blob is served if and only if one with its key was exposed and it can be fetched, and refused if and only if none was. |
| `Requests.DecidesIff` | internal/authz/server.go:176-216 | Exactly which image is decided: the combined image and tag of a versioned image creation, the image of the body of a container creation, and that of the task template of a service creation or update; never more than one. |
| `Requests.RefusedIff` | internal/authz/server.go:176-216 | Exactly when a request is refused undecided, and with which error. |
| `Requests.UnderMeans` | internal/authz/server.go:254-277 | A versioned path, character by character: slashes, a component that begins with `v`, a slash, the rest, slashes. |
| `Requests.PostSpelled` | internal/authz/server.go:177-179 | The method is POST in any letter case; the long s counts as S. |
| `Requests.PullAsked` | internal/authz/server.go:279-286 | `pull` asks for one if it is `1`, or `true`, `t`, `yes` or `y` in any letter case. |
| `Requests.PassesIff` | internal/authz/server.go:176-216 | A request passes undecided if and only if its method is not POST in any letter case, or its path, as text, is none of a versioned image, container or service creation, service update, or build that asks to pull. |
| `Requests.UnversionedPullPasses` | internal/authz/server.go:254-257 | A pull through the path `/images/create` passes undecided. |
| `Requests.BuildsDeniedIff` | internal/authz/server.go:196-203 | A request is denied as a build if and only if it is a POST to a versioned build path that asks to pull. |
| `Requests.HasTagIff` | internal/authz/server.go:336-340 | An image has a tag if and only if there is a colon behind its last slash. |
| `Requests.CombinedTag` | internal/authz/server.go:329-340 | The tag of the query is appended, whatever it holds, if and only if there is one and the image has neither tag nor digest. Without a slash, what it adds is the text behind the last colon if and only if it holds no colon. |
| `Requests.CombinedMeans` | internal/authz/server.go:329-340 | For an appended tag without a slash, exactly which reference results, if any: the image is a name, the tag is a tag of the grammar with or without `@` and a digest behind it, and the reference is that name with that tag and digest. |
| `Requests.DigestAsTagIsRefused` | internal/authz/server.go:329-340 | An appended tag with a colon but without slash and `@`, as a digest is, makes a reference that never parses, so the pull is refused. |
| `Requests.SlashInTagIsPort` | internal/authz/server.go:329-340 | If an appended tag with a slash results in a reference, the image had no slash, and the registry is the image, a colon, and the tag up to its first slash. |
| `Authz.Server.ServeAuthZReq` | internal/authz/server.go:100-145 | The handler equals the specification, in its answer, the tables and the audit log. |
| `Authz.Server.DecideImages` | internal/authz/server.go:125-144 | The loop over the images stops at the first error and at the first denial. |
| `Authz.Server.RecordBuildDeny` | internal/authz/server.go:218-245 | A build denial that the engine did not make is recorded in both logs, row first, or reported as not recorded. |
| `Authz.OneImageAnswered` | internal/authz/server.go:100-145 | A request about an image is allowed if and only if the engine, asked with its user, method and URI, allows without error; an error and a denial are refused as such. |
| `Authz.BuildIsDenied` | internal/authz/server.go:113-120 | A build that asks to pull is never allowed; both logs, as far as there are recorders, say `deny`; a recorder that fails is reported and ends it. |
| `Authz.UndecidedLeavesNothing` | internal/authz/server.go:100-112 | A request that cannot be decoded or inspected is refused, one that passes is allowed, and neither leaves a trace. |
| `Authz.AllowIsOnRecord` | internal/authz/server.go:100-145 | Allow is answered only to a request that is not gated, or when every image was decided without error and allowed and the decision table has gained an allow row for each, with the request's user, method and URI. |
| `Challenge.SplitChallengeParams` | internal/registry/resolver.go:324-348 | The loop computes the specified parts. |
| `Challenge.PartsAreCounted` | internal/registry/resolver.go:324-348 | One part more than there are commas outside quoted strings. |
| `Challenge.PartsAreJoined` | internal/registry/resolver.go:324-348 | Joining the parts with commas gives the input without its escaping backslashes. |
| `Challenge.SplitsAtComma` | internal/registry/resolver.go:324-348 | At a comma outside quoted strings the parts of the two sides are concatenated. |
| `Challenge.ScanQuoted` | internal/registry/resolver.go:324-348 | Whatever a quoted string contains, no split falls inside it, and unescaping gives its value back. |
| `Challenge.ReadBearerChallenge` | internal/registry/resolver.go:296-322 | The loop over the parameters computes the specified challenge. |
| `Challenge.ChallengeIsRead` | internal/registry/resolver.go:296-348 | Any challenge, with its parameters in any number and order, names and scheme in any letter case, values in quotes or bare, and white space before them: the last realm, service and scope are read, or the missing realm is reported. |
| `Challenge.OtherSchemesRefused` | internal/registry/resolver.go:296-303 | A header is unsupported if and only if it does not begin with the scheme, in any letter case, and a space. |
| `Challenge.ChallengeRoundTrip` | internal/registry/resolver.go:296-348 | A rendered challenge is recovered if and only if it has a realm and no value begins or ends with a quote. |

## Left out

- HTTP servers, Unix sockets, registry and token requests, subprocesses, file and SQL I/O: they appear as answers of the outside world or as failures.
- JSON: import starts from the decoded state, manifests from the decoded digests, plugin requests from the decoded fields.
- The command line and everything that formats messages for people; reasons are constructors, not texts.
- `ParseDuration` and `FormatDuration`: a parameter, of which `PolicyRecovery.LoadRecoversConfig` asks that one inverts the other. A number of days whose product overflows is outside of the model with it.
- Which of its errors a text that is no reference is refused with, and which part of a proxy path is missing.
- Line numbers in parse errors, and the 64 KB limit of `bufio.Scanner`: the parser starts from the lines.
- Policy files beyond the layout of `PolicyFile.FileIsRead`: keys that are no words, sections of other names, list items that do not begin with `match`, and indentation other than two spaces a level.
- Failing SQL statements other than those of a request: operator commands succeed or do nothing. `SQLITE_FULL`, which ids beyond 2^63 would cause, does not occur.
- Limits of Go's regular expressions on the size of a pattern, and invalid UTF-8: texts are sequences of characters.
- Collisions of SHA-256.
- Tags that move between the proxy's decision and its fetch: nothing is said about the digest that is served.
- `FailedSignatureCheck`, which is validated but never consulted, has no theorem; neither has "once allowed, always allowed" after a first pull or a bypass, which the code does not promise.
- Runs with imports: the theorems about runs have requests and operator commands; what an import does to one store is `Transfer.ImportMerges`.
- Interleavings inside the proxy: its runs are sequences of whole HTTP requests. The set behind its mutex only grows, and the engine's own interleavings are those of `Machine.dfy`.
- `Admissions.OverrideAdmitsRequests`: the request has no store failures and, if it needs a signature, one that its verifier accepts; all other requests of the run may have any.
- `Protocol.AllowedIsGrounded`: ties a required signature to the cache key; that it is one for the request's own command line is `CacheRuns.AllowedByOwnCommand`.
- `Gates.LookupsAreExactIff`: asks that no exposed digest holds a slash and no repository a component `blobs` or `manifests` before its last, because no path can ask for such blobs; `Gates.GateIsExact` asks for nothing.
- `CacheRefinement.RefinesIff`: its set of policies, like those of the other exact conditions on the cache, holds only policies that require a signature; the others never come near the cache.
- `StableRuns.KnownDigestDecided`: the request has no store failures and, if it needs a signature, one that its verifier accepts; all other requests of the run may have any.
- `Laws.OnceDueAlwaysAllowed`: the later request has no store failures; the requests in between may have any.
- `CacheRefinement.CachedEngineRefinesUncached`: the requests compared have working cache statements, since a failing cache read denies only where there is a cache.
- `Logs.LogsConserved`: assumes, as the promise does, that every request is audited and that neither log fails.
