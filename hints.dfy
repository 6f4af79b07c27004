/**
 * The configuration keys the not-found diagnostics suggest, set against the
 * keys the lookups actually read. The messages as written suggest the
 * crate's former `target_cfg` prefixes; the lookups read `nscfg-` and
 * `nscfg_predicate-`. `CorrectedMessage` suggests the keys that are read.
 */
module Hints {
  import opened Wrappers
  import opened Strings
  import opened Errors
  import opened Config

  /** Defining the variable an alias message suggests leaves the alias as unknown as before. */
  lemma {:induction false} AliasHintIsNotRead(env: Env, name: string, value: string)
    requires AliasKey(name) !in env
    requires forall i :: 0 <= i < |Aliases| ==> Aliases[i].0 != name
    ensures GetAlias(env, name) == Err(AliasNotFound(name))
    ensures GetAlias(env[AliasHintPrefix + name := value], name) == Err(AliasNotFound(name))
  {
    assert (AliasHintPrefix + name)[0] != AliasKey(name)[0];
  }

  /** Defining the variable a predicate message suggests leaves the key as unknown as before. */
  lemma {:induction false} PredicateHintIsNotRead(env: Env, name: string, key: string, value: string)
    requires PredicateKey(key) !in env
    requires forall i :: 0 <= i < |Predicates| ==> Predicates[i].0 != key
    requires name != [] && !IsWhitespace(name[0]) && !IsWhitespace(name[|name| - 1]) && ':' !in name
    requires key != [] && !IsWhitespace(key[0]) && !IsWhitespace(key[|key| - 1])
    ensures GetPredicate(env, name + ":" + key) == Err(InvalidConfigurationPredicate(key))
    ensures GetPredicate(env[PredicateHintPrefix + key := value], name + ":" + key)
      == Err(InvalidConfigurationPredicate(key))
  {
    SplitTrimmedTerm(name, key);
    assert (PredicateHintPrefix + key)[0] != PredicateKey(key)[0];
  }

  /** The diagnostic, with the not-found kinds suggesting the variables the lookups read. */
  function CorrectedMessage(e: NscfgError, tokens: string, g: Glyphs, debug: string -> string): (r: string) {
    match e
    case AliasNotFound(alias) =>
      "Alias `" + alias + "` has no match! Is it added in config.toml as `" + AliasKey(alias) + "`?"
    case InvalidConfigurationPredicate(p) =>
      "Configuration predicate `" + p + "` has no match! Is it added in config.toml as `" + PredicateKey(p) + "`?"
    case _ => Message(e, tokens, g, debug)
  }

  /** Following the corrected alias message makes the alias resolve to the value given. */
  lemma {:induction false} CorrectedAliasHintIsRead(env: Env, name: string, value: string, tokens: string, g: Glyphs, debug: string -> string)
    ensures IsInfix(AliasKey(name), CorrectedMessage(AliasNotFound(name), tokens, g, debug))
    ensures GetAlias(env[AliasKey(name) := value], name) == Ok(value)
  {
    InfixOfConcat("Alias `" + name + "` has no match! Is it added in config.toml as `", AliasKey(name), "`?");
  }

  /**
   * Following the corrected predicate message makes the term resolve to the
   * template given, filled in with the label.
   */
  lemma {:induction false} CorrectedPredicateHintIsRead(
    env: Env, name: string, key: string, template: string, tokens: string, g: Glyphs, debug: string -> string)
    requires name != [] && !IsWhitespace(name[0]) && !IsWhitespace(name[|name| - 1]) && ':' !in name
    requires key != [] && !IsWhitespace(key[0]) && !IsWhitespace(key[|key| - 1])
    ensures IsInfix(PredicateKey(key), CorrectedMessage(InvalidConfigurationPredicate(key), tokens, g, debug))
    ensures GetPredicate(env[PredicateKey(key) := template], name + ":" + key) == Ok(Substitute(template, name))
  {
    InfixOfConcat("Configuration predicate `" + key + "` has no match! Is it added in config.toml as `", PredicateKey(key), "`?");
    SplitTrimmedTerm(name, key);
  }

  /** Every other kind keeps its message. */
  lemma CorrectedMessageElsewhereUnchanged(e: NscfgError, tokens: string, g: Glyphs, debug: string -> string)
    requires !e.AliasNotFound? && !e.InvalidConfigurationPredicate?
    ensures CorrectedMessage(e, tokens, g, debug) == Message(e, tokens, g, debug)
  {
  }
}
