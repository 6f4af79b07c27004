# nscfg in Dafny

A model of the core of `nscfg`, a Rust procedural-macro crate. The crate turns
conditional-compilation conditions, written in a simplified syntax, into
ordinary `#[cfg(...)]` attributes. The model covers three parts:

- **Name resolution** (`config.dfy`). This is the `label:key` predicate
  reference and the bare alias. Each is looked up first in the user's
  configuration, then in a built-in twelve-entry table (`Predicates`,
  `Aliases`). The process environment is a `map<string, string>`, so both
  lookups are pure functions of it. The same file holds:
  - the two configuration flags (release-modifier behaviour and autodoc);
  - the docs.rs detection. This one really does change the process
    environment: it records its answer there as a cache. It is modelled as a
    class whose `vars` field the method updates.
- **Output assembly** (`emit.dfy`). These are the emission loops of
  `target_cfg!` and `match_cfg!`, and the `meta_cfg` desugaring into
  `target_cfg!`. Token streams are sequences of token trees. The arm
  extractor and the item splitter are function parameters, so every
  property holds for whatever they return.
- **The error taxonomy** (`errors.dfy`). This is the closed set of failure
  kinds and the diagnostic text each one renders to.

Two supporting files:

- `strings.dfy` models the Rust `str` operations the resolver relies on:
  - `find` of a character;
  - `trim`, with Unicode White_Space as `char::is_whitespace` defines it;
  - `replace`, which is non-overlapping and scans left to right;
  - substring containment.
- `wrappers.dfy` holds `Option` and `Result`.

`hints.dfy` holds the two findings below. For each one it has the message as
written, the lemma that shows the problem, and a corrected message with its
property proved.

## Model

| member | source | states |
|---|---|---|
| Strings.FindChar | src/config.rs:167 | `find(':')`: `None` exactly when the character is absent. Otherwise the index is its first occurrence. |
| Strings.FindCharAfter | src/config.rs:167 | The first occurrence is the one that follows a prefix without the character. |
| Strings.Trim | src/config.rs:169-170 | The result is no longer than the input. It is empty, or it starts and ends with a non-whitespace character. |
| Strings.TrimRemovesWhitespace | src/config.rs:169-170 | `trim` keeps one contiguous run of the input. Everything it removes before and after that run is whitespace. |
| Strings.TrimPadded | src/config.rs:169-170 | Whitespace padding around a core that starts and ends with a non-whitespace character is exactly what `trim` removes. |
| Strings.TrimIdentity | src/config.rs:169-170 | A string with nothing to trim is its own trim. |
| Strings.TrimIdempotent | src/config.rs:169-170 | Trimming twice is the same as trimming once. |
| Strings.Replace | src/config.rs:174 | `String::replace`, scanning left to right and skipping past each replaced occurrence. It has no contract of its own: `Strings.ReplaceSingle` and `Strings.ReplaceAbsent` state its result. |
| Strings.ReplaceSingle | src/config.rs:174 | A template whose only `{` is the one starting its single placeholder gets exactly that occurrence replaced, and the text around it is kept. |
| Strings.ReplaceAbsent | src/config.rs:179 | A template with no `{` at all is returned unchanged. |
| Strings.Contains | src/config.rs:136 | `content.find(tag)` finds something exactly when the tag occurs in the content. |
| Config.FindEntry | src/config.rs:177 | `iter().find`: `None` exactly when no entry has the key. Otherwise it is the value of the first entry with that key. |
| Config.FindEntryAt | src/config.rs:177-179 | In a table with distinct keys, looking up entry `i`'s key finds entry `i`'s value. |
| Config.BuiltinTablesWellKeyed | src/config.rs:46-75 | Both built-in tables have twelve entries and no repeated key. |
| Config.SplitLabelKey | src/config.rs:167-170 | `None` exactly when the text has no `:`. What the two halves are is stated by `Config.SplitAtFirstColon`. |
| Config.SplitAtFirstColon | src/config.rs:167-170 | For a label without `:`, the split gives the trimmed label and the trimmed rest. Only the first `:` splits the text: the key is everything after it, further colons included. |
| Config.Substitute | src/config.rs:174 | Fills `{}` in a template with the label, using `Strings.Replace`. It has no contract of its own: `Config.BuiltinTemplatesQuoteLabel` states its result on the built-in templates. |
| Config.GetPredicate | src/config.rs:164-192 | Text without `:` fails with the whole text. A configured template for the key wins, with the label substituted. With no template configured, it fails exactly when no built-in key matches. The error always carries the trimmed key. |
| Config.PredicateBuiltinFallback | src/config.rs:177-179 | With no override, the result is the matching built-in template with the label substituted. |
| Config.BuiltinTemplatesQuoteLabel | src/config.rs:62-75 | The eleven named templates render `option = "label"`. The wildcard entry has key `_` and renders the label itself. |
| Config.WithNamedTemplate | src/config.rs:63-73 | Substituting into each named template gives its option name, ` = "`, the label and `"`. |
| Config.WildcardKeyIsIdentity | src/config.rs:74 | `label:_` with no override resolves to exactly the trimmed label. |
| Config.SplitTrimmedTerm | src/config.rs:167-170 | A `label:key` with nothing to trim splits into exactly that label and that key. |
| Config.BuiltinKeyedTerm | src/config.rs:177-179 | A `label:key` with a built-in key and no override resolves to that key's template with the label substituted. |
| Config.BuiltinKeysColonFree | src/config.rs:62-75 | No built-in key contains a `:`. |
| Config.BuiltinPredicateQuotesLabel | src/config.rs:177-179 | `label:k` with named built-in key `k` resolves to `option = "label"`. For example, `linux:os` resolves to `target_os = "linux"`. |
| Config.ColonInKeyIsUnknown | src/config.rs:182 | For `a:b:c`, the key `b:c` is looked up. With no override it fails with `InvalidConfigurationPredicate("b:c")`. |
| Config.GetAlias | src/config.rs:200-217 | A configured expansion wins. Otherwise the result is a built-in table entry, and it fails exactly when no built-in label matches. The error carries the label as given. |
| Config.AliasBuiltinFallback | src/config.rs:207-209 | With no override, a built-in alias expands to its own table entry. |
| Config.BuiltinLabelsTrimmed | src/config.rs:46-59 | No built-in alias label is empty, or starts or ends with whitespace. |
| Config.AliasLabelNotTrimmed | src/config.rs:203-212 | The alias label is not trimmed. Any label with whitespace at either end (` linux`, say) and no override of that exact label fails with `AliasNotFound` carrying it as given. |
| Config.BuiltinKeysTrimmed | src/config.rs:62-75 | No built-in key is empty, or starts or ends with whitespace. |
| Config.BuiltinKeysPlain | src/config.rs:62-75 | No built-in key contains a connective (or-bar, ampersand) or a colon. |
| Config.SplitPaddedTerm | src/config.rs:167-170 | Whitespace around a term, and around its `:`, belongs to neither the label nor the key. |
| Config.PaddedTermResolves | src/config.rs:164-192 | A padded term with a built-in key resolves, whatever the environment holds. |
| Config.LastTermResolves | src/config.rs:46-75 | A final condition term with a built-in key resolves. |
| Config.ConsTermResolves | src/config.rs:46-75 | A term with a built-in key, followed by an or-bar and terms that resolve, gives a condition whose terms all resolve. |
| Config.FirstAliasesResolve | src/config.rs:47-51 | The terms of `linux`, `unix`, `windows`, `macos` and `android` resolve. |
| Config.NextAliasesResolve | src/config.rs:52-56 | The terms of `ios`, `wasm`, `doc`, `test` and `debug` resolve. |
| Config.DesktopLastResolves | src/config.rs:57 | The last term of `desktop` resolves. |
| Config.DesktopTailResolves | src/config.rs:57 | The last two terms of `desktop` resolve. |
| Config.DesktopTermsResolve | src/config.rs:57 | All three terms of `desktop` resolve. |
| Config.MobileTermsResolve | src/config.rs:58 | Both terms of `mobile` resolve. |
| Config.BuiltinAliasTermsResolve | src/config.rs:46-75 | Table well-formedness: every term of every built-in alias expansion uses a built-in predicate key. So no term ever fails to resolve, under any environment. |
| Config.GetReleaseModifierBehaviour | src/config.rs:92-103 | The result is `Ignore` exactly when the variable is set to `ignore`. Unset, `panic` or any other value gives `Panic`. |
| Config.IsAutodoc | src/config.rs:109-118 | The result is false exactly when the variable is set to `false`. Unset or any other value gives true. |
| Config.ProcessEnv.IfDocsRsEnabled | src/config.rs:123-156 | With a recorded answer, it returns `true` exactly when that answer is `true` and changes nothing. Otherwise it reads `<CARGO_MANIFEST_DIR>/Cargo.toml`: the answer is whether the read succeeded and the text contains `[package.metadata.docs.rs]`. It records `true`/`false` and adds nothing else to the environment. Afterwards the recorded answer always matches the result. |
| Config.DocsRsAnswerIsCached | src/config.rs:125-153 | Asking twice gives the same answer. The second answer does not depend on the file system, so the manifest is read at most once. |
| Errors.Message | src/errors.rs:90-111 | The diagnostic for each of the 19 kinds. It has no contract of its own: the `Errors.*Message*` lemmas below state what the messages contain. |
| Errors.MessageIgnoresTokens | src/errors.rs:90-111 | Except for three kinds, the message does not depend on `tokens`. |
| Errors.MessageQuotesTokens | src/errors.rs:92-104 | A missing operator quotes the debug form of `tokens`. An invalid character quotes the character and the debug form of `tokens`. A legacy syntax error quotes `tokens` as given. |
| Errors.AliasNotFoundMessage | src/errors.rs:95 | The message names the alias and suggests the key `target_cfg-<alias>`. |
| Errors.InvalidPredicateMessage | src/errors.rs:96 | The message names the key and suggests `target_cfg_predicate-<key>`. |
| Errors.ContentSeparatorMessages | src/errors.rs:100-106 | Both content-separator messages spell the separator as its two glyphs side by side. |
| Hints.AliasHintIsNotRead | src/errors.rs:95 | Setting the variable the alias message suggests leaves the alias unknown. |
| Hints.PredicateHintIsNotRead | src/errors.rs:96 | Setting the variable the predicate message suggests leaves the key unknown. |
| Hints.CorrectedAliasHintIsRead | src/config.rs:203-204 | The corrected alias message names `nscfg-<alias>`, and setting that variable makes the alias resolve to its value. |
| Hints.CorrectedPredicateHintIsRead | src/config.rs:173-174 | The corrected predicate message names `nscfg_predicate-<key>`, and setting that variable makes the term resolve to the template with the label substituted. |
| Hints.CorrectedMessageElsewhereUnchanged | src/errors.rs:90-111 | The correction changes only the two not-found messages. |
| Emit.BlocksAppend | src/lib.rs:195-211 | Concatenating arm lists concatenates their blocks. |
| Emit.BlocksCount | src/lib.rs:201-210 | Header replication: there are exactly as many header pairs as items over all arms. |
| Emit.BlocksAround | src/lib.rs:195-211 | Arm `i`'s blocks sit between those of the arms before it and those of the arms after it. |
| Emit.BlockOfItem | src/lib.rs:203-209 | Item `j` of arm `i` is emitted verbatim, under arm `i`'s headers, at position (items before arm `i`) + `j`. |
| Emit.EmptyArmEmitsNothing | src/lib.rs:198-210 | An arm whose content splits into no items contributes nothing, wherever it stands. |
| Emit.RenderAppend | src/lib.rs:189-214 | Rendering distributes over concatenation. |
| Emit.RenderAround | src/lib.rs:203-209 | Each item is emitted immediately after its cfg and attribute headers, between what precedes it and what follows it. |
| Emit.TargetCfg | src/lib.rs:186-216 | The loops emit exactly the rendering of the blocks of the arms extracted with the `TargetMacro` tag. |
| Emit.RenderNextItem | src/lib.rs:203-209 | One more item appends its arm's cfg header, attribute header and the item. |
| Emit.BlocksNextArm | src/lib.rs:195-211 | One more arm appends its blocks after those emitted so far. |
| Emit.MatchBodyAppend | src/lib.rs:300-306 | Concatenating arm lists concatenates the bodies. |
| Emit.MatchArmAt | src/lib.rs:300-306 | Arm `i` contributes its cfg header and then one brace group holding exactly its content, in place. |
| Emit.MatchBodyIgnoresAttr | src/lib.rs:301-305 | No attribute header is emitted: arms that differ only there give the same output. |
| Emit.MatchCfg | src/lib.rs:291-311 | The output is one brace group around the body of the arms extracted with the `MatchMacro` tag. |
| Emit.MetaCfg | src/lib.rs:352-362 | The result is exactly `target_cfg!` applied to `attr => { item }`. |

## Left out

- The arm extractor (`TargetArm::extract`) and the item splitter (`syntax::split_items`) are defined in `src/arm.rs` and `src/syntax.rs`. Those files are not part of this model. Both are function parameters, so their parsing, their compile errors and their panics are not modelled.
- The condition parser, modifiers and wildcard-placement rules are not part of this model either. They also live in `src/arm.rs` and `src/syntax.rs`. `Config.Terms` only splits an alias expansion on `|` and `&`. That is enough for the built-in expansions, which use no other operator.
- The glyph constants the messages quote (arm separator, content separator, wildcard, modifiers) come from `src/arm.rs`. They are a `Glyphs` parameter of `Errors.Message`.
- Rust's `{:?}` rendering of a string (quoting and escaping) is a `debug` parameter of `Errors.Message`.
- `Errors.Message` is total because every Dafny function is. It has no contract of its own; the lemmas beside it state what the messages contain.
- The error enum at src/errors.rs:28-86 has 19 variants, not 20. The model has the 19.
- `proc_macro` token streams are sequences of a token-tree datatype. Spans, `Clone` and the string parse of the `=>` separator at src/lib.rs:356 are not modelled. The separator is two punctuation tokens, `=` (joint) and `>`.
- `std::env::var` is a map lookup. A value that is not valid Unicode is an error in Rust and is treated like an unset variable. Here every value in the map is a string, so that case does not arise.
- `Config.ProcessEnv.IfDocsRsEnabled` requires `CARGO_MANIFEST_DIR` to be set whenever no answer is recorded. In that case the source unwraps the lookup and panics. Cargo always sets that variable for a build.
- Reading `Cargo.toml` (`fs::read_to_string`) is a function parameter. `None` stands for any read error.
- Concurrent access to the process environment is not modelled. Calls are sequential.
- Rust `find` returns a byte offset. The model uses a character index. Both split at the same place, because `:` is a one-byte character.
- `Strings.Replace` has no contract of its own. Its behaviour on the built-in templates, which hold a single placeholder, is stated by `Strings.ReplaceSingle` and `Strings.ReplaceAbsent`. A configured template with several placeholders is modelled, but no lemma states its result.
- The unit and integration tests and the doc-comment examples in `src/lib.rs` are not modelled.

## Findings

| source | as written | input that shows it | evidently intended | confidence | as-written member | corrected member |
|---|---|---|---|---|---|---|
| src/errors.rs:95 | The alias-not-found message suggests the configuration key `target_cfg-<alias>`. The lookup at src/config.rs:203 reads `nscfg-<alias>` (prefix at src/config.rs:35). | Alias `foo`, with no override and no built-in entry. After setting `target_cfg-foo`, `get_nscfg_alias("foo")` still fails with `AliasNotFound("foo")`. | Suggest `nscfg-<alias>`. Following that hint makes the alias resolve. | high; not executed | Hints.AliasHintIsNotRead | Hints.CorrectedAliasHintIsRead |
| src/errors.rs:96 | The predicate-not-found message suggests `target_cfg_predicate-<key>`. The lookup at src/config.rs:173 reads `nscfg_predicate-<key>` (prefix at src/config.rs:34). | `x:zz`, with no override. After setting `target_cfg_predicate-zz`, `get_nscfg_predicate("x:zz")` still fails with `InvalidConfigurationPredicate("zz")`. | Suggest `nscfg_predicate-<key>`. Following that hint makes the term resolve. | high; not executed | Hints.PredicateHintIsNotRead | Hints.CorrectedPredicateHintIsRead |
