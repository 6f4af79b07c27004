/**
 * The closed taxonomy of failures a `target_cfg!`, `match_cfg!` or `meta_cfg`
 * expansion can end in, and the diagnostic text each one renders to.
 */
module Errors {
  import opened Strings

  /** One failure kind; the four that carry text carry the offending token. */
  datatype NscfgError =
    | MissingOperator
    | EmptyNode
    | InvalidCharacter(character: string)
    | AliasNotFound(alias: string)
    | InvalidConfigurationPredicate(key: string)
    | EmptyArm
    | WildcardArmNotLast
    | ArmSeparatorMissing
    | ContentSeparatorError
    | WildcardArmMissing
    | WildcardArmOnTarget
    | TargetInFunction
    | LegacySyntaxError
    | MixedSyntaxError
    | ContentSeparatorMissing
    | ModifierNotFirst
    | ModifierPanicRelease
    | MatchModifierMoreThanOneActivate
    | MatchDeactivatedWildArm

  /**
   * The arm syntax glyphs the messages quote. They are defined by the arm
   * splitter, which is not part of this model, so they are given here as
   * their `Display` renderings.
   */
  datatype Glyphs = Glyphs(
    armSeparator: string,
    contentSeparator0: string,
    contentSeparator1: string,
    wildcardArm: string,
    modifierActivate: string,
    modifierDeactivate: string,
    modifierPanic: string)

  /** The configuration-key prefixes the not-found messages suggest. */
  const AliasHintPrefix: string := "target_cfg-"
  const PredicateHintPrefix: string := "target_cfg_predicate-"

  /** The kinds whose message quotes the `tokens` the failure was found in. */
  predicate QuotesTokens(e: NscfgError) {
    e.MissingOperator? || e.InvalidCharacter? || e.LegacySyntaxError?
  }

  /**
   * The diagnostic for `e`, found while reading `tokens`. `debug` is Rust's
   * `{:?}` rendering of a string (quoting and escaping), given as a parameter.
   */
  function Message(e: NscfgError, tokens: string, g: Glyphs, debug: string -> string): (r: string)
  {
    match e
    case MissingOperator =>
      "Operator `&` or '|' missing for `" + debug(tokens) + "`. Target must not contain space."
    case EmptyNode =>
      "Empty node generated from attributes. Are you missing a statement between separator?"
    case InvalidCharacter(c) =>
      "Invalid character `" + c + "` for `" + debug(tokens) + "`."
    case AliasNotFound(alias) =>
      "Alias `" + alias + "` has no match! Is it added in config.toml as `" + (AliasHintPrefix + alias) + "`?"
    case InvalidConfigurationPredicate(p) =>
      "Configuration predicate `" + p + "` has no match! Is it added in config.toml as `" + (PredicateHintPrefix + p) + "`?"
    case EmptyArm =>
      "Empty arm with no attributes detected!"
    case WildcardArmNotLast =>
      "Wildcard branch `_` must ALWAYS be the last branch."
    case ArmSeparatorMissing =>
      "Arm syntax incorrect. Are you missing a separator `" + g.armSeparator + "` between arms?"
    case ContentSeparatorError =>
      "Arm syntax incorrect. Is your arm separator `" + g.contentSeparator0 + g.contentSeparator1 + "` syntax Ok?"
    case WildcardArmMissing =>
      "Ensure that all possible cases are being handled by adding a match arm with a `" + g.wildcardArm + "` wildcard pattern."
    case WildcardArmOnTarget =>
      "target_cfg! macro cannot have a `" + g.wildcardArm + "` wildcard pattern."
    case TargetInFunction =>
      "target_cfg! macro cannot be used inside a function. Use match_cfg! instead."
    case LegacySyntaxError =>
      "Legacy syntax error in `" + tokens + "`."
    case MixedSyntaxError =>
      "Legacy syntax and simplified syntax can't be mixed on same arm!"
    case ContentSeparatorMissing =>
      "Arm content separator `" + g.contentSeparator0 + g.contentSeparator1 + "` missing!"
    case ModifierNotFirst =>
      "Arm modifiers `" + g.modifierActivate + "`, `" + g.modifierDeactivate + "` and `" + g.modifierPanic
      + "` must be the first character of arm!"
    case ModifierPanicRelease =>
      "Arm modifiers `" + g.modifierActivate + "` and `" + g.modifierDeactivate
      + "` will panic during release compilation by default! This behaviour can be changed. See https://github.com/NickelAngeStudio/nscfg/wiki/Syntax#six-modifiers"
    case MatchModifierMoreThanOneActivate =>
      "match_cfg! cannot have more than one `" + g.modifierActivate + "` modifier!"
    case MatchDeactivatedWildArm =>
      "match_cfg! cannot deactivate wildcard arm with `" + g.modifierDeactivate + "` modifier!"
  }

  /** Apart from three kinds, the message does not depend on the tokens at all. */
  lemma MessageIgnoresTokens(e: NscfgError, t1: string, t2: string, g: Glyphs, debug: string -> string)
    requires !QuotesTokens(e)
    ensures Message(e, t1, g, debug) == Message(e, t2, g, debug)
  {
  }

  /**
   * The three kinds that do depend on the tokens quote them: the debug form
   * for a missing operator and an invalid character (which also names the
   * character), the plain form for a legacy syntax error.
   */
  lemma {:induction false} MessageQuotesTokens(e: NscfgError, tokens: string, g: Glyphs, debug: string -> string)
    requires QuotesTokens(e)
    ensures e.MissingOperator? ==> IsInfix(debug(tokens), Message(e, tokens, g, debug))
    ensures e.InvalidCharacter? ==>
      IsInfix(e.character, Message(e, tokens, g, debug)) && IsInfix(debug(tokens), Message(e, tokens, g, debug))
    ensures e.LegacySyntaxError? ==> IsInfix(tokens, Message(e, tokens, g, debug))
  {
    var m, d := Message(e, tokens, g, debug), debug(tokens);
    match e
    case MissingOperator =>
      var pre, post := "Operator `&` or '|' missing for `", "`. Target must not contain space.";
      assert m == pre + d + post;
      InfixOfConcat(pre, d, post);
    case InvalidCharacter(c) =>
      var pre, mid, post := "Invalid character `", "` for `", "`.";
      assert m == pre + c + (mid + d + post);
      InfixOfConcat(pre, c, mid + d + post);
      assert m == (pre + c + mid) + d + post;
      InfixOfConcat(pre + c + mid, d, post);
    case LegacySyntaxError =>
      var pre, post := "Legacy syntax error in `", "`.";
      assert m == pre + tokens + post;
      InfixOfConcat(pre, tokens, post);
  }

  /** An unknown alias is named, inside the configuration key the message suggests for it. */
  lemma {:induction false} AliasNotFoundMessage(alias: string, tokens: string, g: Glyphs, debug: string -> string)
    ensures IsInfix(AliasHintPrefix + alias, Message(AliasNotFound(alias), tokens, g, debug))
    ensures IsInfix(alias, Message(AliasNotFound(alias), tokens, g, debug))
  {
    var hint := AliasHintPrefix + alias;
    var pre := "Alias `" + alias + "` has no match! Is it added in config.toml as `";
    InfixOfConcat(pre, hint, "`?");
    InfixOfConcat(AliasHintPrefix, alias, []);
    assert AliasHintPrefix + alias + [] == hint;
    InfixTransitive(alias, hint, Message(AliasNotFound(alias), tokens, g, debug));
  }

  /** An unknown predicate key is named, inside the configuration key the message suggests for it. */
  lemma {:induction false} InvalidPredicateMessage(p: string, tokens: string, g: Glyphs, debug: string -> string)
    ensures IsInfix(PredicateHintPrefix + p, Message(InvalidConfigurationPredicate(p), tokens, g, debug))
    ensures IsInfix(p, Message(InvalidConfigurationPredicate(p), tokens, g, debug))
  {
    var hint := PredicateHintPrefix + p;
    var pre := "Configuration predicate `" + p + "` has no match! Is it added in config.toml as `";
    InfixOfConcat(pre, hint, "`?");
    InfixOfConcat(PredicateHintPrefix, p, []);
    assert PredicateHintPrefix + p + [] == hint;
    InfixTransitive(p, hint, Message(InvalidConfigurationPredicate(p), tokens, g, debug));
  }

  /** Both content-separator messages spell the separator as its two glyphs side by side. */
  lemma {:induction false} ContentSeparatorMessages(tokens: string, g: Glyphs, debug: string -> string)
    ensures IsInfix(g.contentSeparator0 + g.contentSeparator1, Message(ContentSeparatorError, tokens, g, debug))
    ensures IsInfix(g.contentSeparator0 + g.contentSeparator1, Message(ContentSeparatorMissing, tokens, g, debug))
  {
    var sep := g.contentSeparator0 + g.contentSeparator1;
    var pre1, post1 := "Arm syntax incorrect. Is your arm separator `", "` syntax Ok?";
    assert Message(ContentSeparatorError, tokens, g, debug) == pre1 + sep + post1;
    InfixOfConcat(pre1, sep, post1);
    var pre2, post2 := "Arm content separator `", "` missing!";
    assert Message(ContentSeparatorMissing, tokens, g, debug) == pre2 + sep + post2;
    InfixOfConcat(pre2, sep, post2);
  }
}
