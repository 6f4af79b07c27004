/**
 * Resolution of the two kinds of names an arm condition is written with:
 * `label:key` predicate references and bare aliases. Each is looked up first
 * in the user's configuration (environment variables set from
 * `.cargo/config.toml`), then in a built-in table. The process environment is
 * injected as a map, which makes every lookup a pure function of it.
 */
module Config {
  import opened Wrappers
  import opened Strings
  import opened Errors

  /** The process environment: variable name to value. */
  type Env = map<string, string>

  const EnvKeyPredicate: string := "nscfg_predicate-"
  const EnvKeyAlias: string := "nscfg-"
  const PredicatePlaceholder: string := "{}"
  const AutoDocKey: string := "nscfg_autodoc"
  const ModifierBehaviourKey: string := "nscfg_release_modifier_behaviour"
  const CargoCacheKey: string := "CFG_BOOST_ATTR_DOC_SET"
  const DocsRsTag: string := "[package.metadata.docs.rs]"
  const CargoManifestDir: string := "CARGO_MANIFEST_DIR"
  const CargoManifestName: string := "Cargo.toml"
  const DocAlias: string := "doc"

  /** Built-in aliases: label to condition text. */
  const Aliases: seq<(string, string)> := [
    ("linux", "linux:os"),
    ("unix", "unix:_"),
    ("windows", "windows:_"),
    ("macos", "macos:os"),
    ("android", "android:os"),
    ("ios", "ios:os"),
    ("wasm", "wasm:_"),
    (DocAlias, "doc:_"),
    ("test", "test:_"),
    ("debug", "debug_assertions:_"),
    ("desktop", "linux:os | windows:_ | macos:os"),
    ("mobile", "android:os | ios:os")
  ]

  /** Built-in predicate templates: key to template holding one placeholder. */
  const Predicates: seq<(string, string)> := [
    ("ar", "target_arch = \"{}\""),
    ("tf", "target_feature = \"{}\""),
    ("os", "target_os = \"{}\""),
    ("fm", "target_family = \"{}\""),
    ("ev", "target_env = \"{}\""),
    ("ed", "target_endian = \"{}\""),
    ("pw", "target_pointer_width = \"{}\""),
    ("vn", "target_vendor = \"{}\""),
    ("at", "target_has_atomic = \"{}\""),
    ("pn", "panic = \"{}\""),
    ("ft", "feature = \"{}\""),
    ("_", PredicatePlaceholder)
  ]

  /** The configuration variable that overrides predicate key `key`. */
  function PredicateKey(key: string): (k: string) {
    EnvKeyPredicate + key
  }

  /** The configuration variable that overrides alias `label`. */
  function AliasKey(name: string): (k: string) {
    EnvKeyAlias + name
  }

  predicate DistinctKeys(table: seq<(string, string)>) {
    forall i, j :: 0 <= i < j < |table| ==> table[i].0 != table[j].0
  }

  /** `iter().find` on a key/value table: the value of the first entry whose key is `key`. */
  function FindEntry(table: seq<(string, string)>, key: string): (r: Option<string>)
    ensures r.None? <==> forall i :: 0 <= i < |table| ==> table[i].0 != key
    ensures r.Some? ==> exists i :: 0 <= i < |table| && table[i] == (key, r.value)
                                    && forall j :: 0 <= j < i ==> table[j].0 != key
  {
    if table == [] then None
    else if table[0].0 == key then Some(table[0].1)
    else
      var r := FindEntry(table[1..], key);
      assert forall i :: 1 <= i < |table| ==> table[i] == table[1..][i - 1];
      r
  }

  /** With distinct keys, the entry found is the one entry carrying the key. */
  lemma {:induction false} FindEntryAt(table: seq<(string, string)>, i: nat)
    requires DistinctKeys(table) && i < |table|
    ensures FindEntry(table, table[i].0) == Some(table[i].1)
  {
    var r := FindEntry(table, table[i].0);
    var k :| 0 <= k < |table| && table[k] == (table[i].0, r.value)
              && forall j :: 0 <= j < k ==> table[j].0 != table[i].0;
  }

  /** Neither built-in table repeats a key, and each has twelve entries. */
  lemma BuiltinTablesWellKeyed()
    ensures |Aliases| == 12 && |Predicates| == 12
    ensures DistinctKeys(Aliases) && DistinctKeys(Predicates)
  {
  }

  /**
   * Split `label:key` at the first `:`, trimming both halves; `None` when
   * there is no `:` at all.
   */
  function SplitLabelKey(tokens: string): (r: Option<(string, string)>)
    ensures r.None? <==> ':' !in tokens
  {
    match FindChar(tokens, ':')
    case None => None
    case Some(p) => Some((Trim(tokens[..p]), Trim(tokens[p + 1..])))
  }

  /** Everything after the first `:`, further colons included, is the key. */
  lemma {:induction false} SplitAtFirstColon(name: string, rest: string)
    requires ':' !in name
    ensures SplitLabelKey(name + ":" + rest) == Some((Trim(name), Trim(rest)))
  {
    var s := name + ":" + rest;
    FindCharAfter(name, ':', rest);
    assert s[..|name|] == name && s[|name| + 1..] == rest;
  }

  /** The template with every `{}` replaced by the label (`String::replace`). */
  function Substitute(template: string, name: string): (r: string) {
    Replace(template, PredicatePlaceholder, name)
  }

  /**
   * `get_nscfg_predicate`: resolve `label:key` to a predicate. A configured
   * template for the key wins over the built-in one; an unknown key fails with
   * the trimmed key, and text without `:` fails with the whole text.
   */
  function GetPredicate(env: Env, tokens: string): (r: Result<string, NscfgError>)
    ensures SplitLabelKey(tokens).None? ==> r == Err(InvalidConfigurationPredicate(tokens))
    ensures SplitLabelKey(tokens).Some? ==>
      var (name, key) := SplitLabelKey(tokens).value;
      && (PredicateKey(key) in env ==> r == Ok(Substitute(env[PredicateKey(key)], name)))
      && (PredicateKey(key) !in env ==> (r.Err? <==> forall i :: 0 <= i < |Predicates| ==> Predicates[i].0 != key))
      && (r.Err? ==> r.error == InvalidConfigurationPredicate(key))
  {
    match SplitLabelKey(tokens)
    case None => Err(InvalidConfigurationPredicate(tokens))
    case Some((name, key)) =>
      if PredicateKey(key) in env then Ok(Substitute(env[PredicateKey(key)], name))
      else
        match FindEntry(Predicates, key)
        case Some(template) => Ok(Substitute(template, name))
        case None => Err(InvalidConfigurationPredicate(key))
  }

  /** Without an override, the built-in template of the key is filled in with the label. */
  lemma {:induction false} PredicateBuiltinFallback(env: Env, tokens: string, i: nat)
    requires SplitLabelKey(tokens).Some? && i < |Predicates|
    requires Predicates[i].0 == SplitLabelKey(tokens).value.1
    requires PredicateKey(Predicates[i].0) !in env
    ensures GetPredicate(env, tokens) == Ok(Substitute(Predicates[i].1, SplitLabelKey(tokens).value.0))
  {
    BuiltinTablesWellKeyed();
    FindEntryAt(Predicates, i);
  }

  /** The cfg option names the eleven non-wildcard built-in templates test. */
  const PredicateNames: seq<string> := ["target_arch", "target_feature", "target_os", "target_family", "target_env", "target_endian", "target_pointer_width", "target_vendor", "target_has_atomic", "panic", "feature"]

  /**
   * Every built-in template but the wildcard one renders `name = "label"`,
   * and the wildcard template renders the label itself.
   */
  lemma {:induction false} BuiltinTemplatesQuoteLabel(i: nat, name: string)
    requires i < |Predicates|
    ensures i < |PredicateNames| ==>
      Substitute(Predicates[i].1, name) == PredicateNames[i] + " = \"" + name + "\""
    ensures i == |PredicateNames| ==> Predicates[i].0 == "_" && Substitute(Predicates[i].1, name) == name
  {
    if i == |PredicateNames| {
      ReplaceSingle("", "{}", "", name);
      assert "" + "{}" + "" == Predicates[i].1;
    } else {
      WithNamedTemplate(i, name);
    }
  }

  lemma {:induction false} WithNamedTemplate(i: nat, name: string)
    requires i < |PredicateNames|
    ensures Substitute(Predicates[i].1, name) == PredicateNames[i] + " = \"" + name + "\""
  {
    if i == 0 {
      assert Predicates[0].1 == PredicateNames[0] + " = \"" + "{}" + "\"";
      assert '{' !in PredicateNames[0];
    } else if i == 1 {
      assert Predicates[1].1 == PredicateNames[1] + " = \"" + "{}" + "\"";
      assert '{' !in PredicateNames[1];
    } else if i == 2 {
      assert Predicates[2].1 == PredicateNames[2] + " = \"" + "{}" + "\"";
      assert '{' !in PredicateNames[2];
    } else if i == 3 {
      assert Predicates[3].1 == PredicateNames[3] + " = \"" + "{}" + "\"";
      assert '{' !in PredicateNames[3];
    } else if i == 4 {
      assert Predicates[4].1 == PredicateNames[4] + " = \"" + "{}" + "\"";
      assert '{' !in PredicateNames[4];
    } else if i == 5 {
      assert Predicates[5].1 == PredicateNames[5] + " = \"" + "{}" + "\"";
      assert '{' !in PredicateNames[5];
    } else if i == 6 {
      assert Predicates[6].1 == PredicateNames[6] + " = \"" + "{}" + "\"";
      assert '{' !in PredicateNames[6];
    } else if i == 7 {
      assert Predicates[7].1 == PredicateNames[7] + " = \"" + "{}" + "\"";
      assert '{' !in PredicateNames[7];
    } else if i == 8 {
      assert Predicates[8].1 == PredicateNames[8] + " = \"" + "{}" + "\"";
      assert '{' !in PredicateNames[8];
    } else if i == 9 {
      assert Predicates[9].1 == PredicateNames[9] + " = \"" + "{}" + "\"";
      assert '{' !in PredicateNames[9];
    } else {
      assert Predicates[10].1 == PredicateNames[10] + " = \"" + "{}" + "\"";
      assert '{' !in PredicateNames[10];
    }
    ReplaceSingle(PredicateNames[i] + " = \"", "{}", "\"", name);
  }

  /** The wildcard key `_` resolves to the trimmed label itself. */
  lemma {:induction false} WildcardKeyIsIdentity(env: Env, name: string, rest: string)
    requires ':' !in name && Trim(rest) == "_"
    requires PredicateKey("_") !in env
    ensures GetPredicate(env, name + ":" + rest) == Ok(Trim(name))
  {
    SplitAtFirstColon(name, rest);
    PredicateBuiltinFallback(env, name + ":" + rest, 11);
    BuiltinTemplatesQuoteLabel(11, Trim(name));
  }

  /** A `label:key` with nothing to trim splits into exactly that label and key. */
  lemma {:induction false} SplitTrimmedTerm(name: string, key: string)
    requires name != [] && !IsWhitespace(name[0]) && !IsWhitespace(name[|name| - 1]) && ':' !in name
    requires key != [] && !IsWhitespace(key[0]) && !IsWhitespace(key[|key| - 1])
    ensures SplitLabelKey(name + ":" + key) == Some((name, key))
  {
    SplitAtFirstColon(name, key);
    TrimIdentity(name);
    TrimIdentity(key);
  }

  /** A trimmed `label:key` with a built-in key and no override fills that key's template with the label. */
  lemma {:induction false} BuiltinKeyedTerm(env: Env, name: string, j: nat)
    requires name != [] && !IsWhitespace(name[0]) && !IsWhitespace(name[|name| - 1]) && ':' !in name
    requires j < |Predicates| && PredicateKey(Predicates[j].0) !in env
    ensures GetPredicate(env, name + ":" + Predicates[j].0) == Ok(Substitute(Predicates[j].1, name))
  {
    BuiltinKeysTrimmed(j);
    SplitTrimmedTerm(name, Predicates[j].0);
    PredicateBuiltinFallback(env, name + ":" + Predicates[j].0, j);
  }

  /** No built-in key contains a `:`. */
  lemma BuiltinKeysColonFree(key: string)
    requires ':' in key
    ensures forall i :: 0 <= i < |Predicates| ==> Predicates[i].0 != key
  {
  }

  /** Every non-wildcard built-in key turns `label:key` into `option = "label"`. */
  lemma {:induction false} BuiltinPredicateQuotesLabel(env: Env, name: string, j: nat)
    requires name != [] && !IsWhitespace(name[0]) && !IsWhitespace(name[|name| - 1]) && ':' !in name
    requires j < |PredicateNames| && PredicateKey(Predicates[j].0) !in env
    ensures GetPredicate(env, name + ":" + Predicates[j].0) == Ok(PredicateNames[j] + " = \"" + name + "\"")
  {
    BuiltinKeyedTerm(env, name, j);
    BuiltinTemplatesQuoteLabel(j, name);
  }

  /**
   * Only the first `:` separates: in `a:b:c` the key is `b:c`, and a key
   * holding a `:` names no built-in template.
   */
  lemma {:induction false} ColonInKeyIsUnknown(env: Env, name: string, key: string)
    requires name != [] && !IsWhitespace(name[0]) && !IsWhitespace(name[|name| - 1]) && ':' !in name
    requires key != [] && !IsWhitespace(key[0]) && !IsWhitespace(key[|key| - 1]) && ':' in key
    requires PredicateKey(key) !in env
    ensures GetPredicate(env, name + ":" + key) == Err(InvalidConfigurationPredicate(key))
  {
    SplitTrimmedTerm(name, key);
    BuiltinKeysColonFree(key);
  }

  /**
   * `get_nscfg_alias`: the configured expansion of `label` wins over the
   * built-in one; an unknown label fails with the label as given (untrimmed).
   */
  function GetAlias(env: Env, name: string): (r: Result<string, NscfgError>)
    ensures AliasKey(name) in env ==> r == Ok(env[AliasKey(name)])
    ensures AliasKey(name) !in env ==> (r.Err? <==> forall i :: 0 <= i < |Aliases| ==> Aliases[i].0 != name)
    ensures AliasKey(name) !in env && r.Ok? ==> (name, r.value) in Aliases
    ensures r.Err? ==> r.error == AliasNotFound(name)
  {
    if AliasKey(name) in env then Ok(env[AliasKey(name)])
    else
      match FindEntry(Aliases, name)
      case Some(expansion) => Ok(expansion)
      case None => Err(AliasNotFound(name))
  }

  /** Without an override, a built-in alias expands to its table entry. */
  lemma {:induction false} AliasBuiltinFallback(env: Env, i: nat)
    requires i < |Aliases| && AliasKey(Aliases[i].0) !in env
    ensures GetAlias(env, Aliases[i].0) == Ok(Aliases[i].1)
  {
    BuiltinTablesWellKeyed();
    FindEntryAt(Aliases, i);
  }

  /** No built-in alias label is empty, or starts or ends with whitespace. */
  lemma BuiltinLabelsTrimmed(i: nat)
    requires i < |Aliases|
    ensures Aliases[i].0 != [] && !IsWhitespace(Aliases[i].0[0])
    ensures !IsWhitespace(Aliases[i].0[|Aliases[i].0| - 1])
  {
  }

  /**
   * Alias labels are not trimmed: a label with whitespace at either end
   * (` linux`, say) names no built-in alias, so without an override of that
   * exact label it is unknown, and the error carries it as given.
   */
  lemma {:induction false} AliasLabelNotTrimmed(env: Env, name: string)
    requires name != [] && (IsWhitespace(name[0]) || IsWhitespace(name[|name| - 1]))
    requires AliasKey(name) !in env
    ensures GetAlias(env, name) == Err(AliasNotFound(name))
  {
    forall i | 0 <= i < |Aliases|
      ensures Aliases[i].0 != name
    {
      BuiltinLabelsTrimmed(i);
    }
  }

  predicate IsConnective(c: char) {
    c == '|' || c == '&'
  }

  /**
   * The terms an alias expansion combines with `|` and `&`, untrimmed. The
   * condition parser itself is not part of this model; the built-in
   * expansions use no other operator, so this is enough to state what their
   * terms resolve to.
   */
  function Terms(s: string): (ts: seq<string>)
    ensures |ts| > 0
    decreases |s|
  {
    if s == [] then [""]
    else
      var rest := Terms(s[1..]);
      if IsConnective(s[0]) then [""] + rest
      else [[s[0]] + rest[0]] + rest[1..]
  }

  lemma {:induction false} TermsSingle(s: string)
    requires '|' !in s && '&' !in s
    ensures Terms(s) == [s]
  {
    if s != [] {
      assert s[0] in s && '|' !in s[1..] && '&' !in s[1..];
      TermsSingle(s[1..]);
      assert [s[0]] + s[1..] == s;
    }
  }

  lemma {:induction false} TermsCons(a: string, c: char, b: string)
    requires '|' !in a && '&' !in a && IsConnective(c)
    ensures Terms(a + [c] + b) == [a] + Terms(b)
  {
    var s := a + [c] + b;
    if a == [] {
      assert s[1..] == b;
    } else {
      assert s[1..] == a[1..] + [c] + b;
      assert s[0] == a[0] && a[0] in a && '|' !in a[1..] && '&' !in a[1..];
      TermsCons(a[1..], c, b);
      assert [a[0]] + a[1..] == a;
    }
  }

  lemma BuiltinKeysTrimmed(j: nat)
    requires j < |Predicates|
    ensures Predicates[j].0 != [] && !IsWhitespace(Predicates[j].0[0])
    ensures !IsWhitespace(Predicates[j].0[|Predicates[j].0| - 1])
  {
  }

  /** Whitespace around a `label:key` term and around its `:` is not part of the label or the key. */
  lemma {:induction false} SplitPaddedTerm(pre: string, name: string, key: string, post: string)
    requires AllWhitespace(pre) && AllWhitespace(post)
    requires name != [] && !IsWhitespace(name[0]) && !IsWhitespace(name[|name| - 1]) && ':' !in name
    requires key != [] && !IsWhitespace(key[0]) && !IsWhitespace(key[|key| - 1])
    ensures SplitLabelKey(pre + name + ":" + key + post) == Some((name, key))
  {
    assert ':' !in pre + name by {
      assert forall k :: 0 <= k < |pre| ==> IsWhitespace(pre[k]);
    }
    assert pre + name + ":" + key + post == (pre + name) + ":" + (key + post);
    SplitAtFirstColon(pre + name, key + post);
    TrimLeftPadded(pre, name);
    TrimRightPadded(key, post);
  }

  /** A `label:key` term with a built-in key resolves, however the environment overrides it. */
  lemma {:induction false} PaddedTermResolves(env: Env, pre: string, name: string, j: nat, post: string)
    requires AllWhitespace(pre) && AllWhitespace(post)
    requires name != [] && !IsWhitespace(name[0]) && !IsWhitespace(name[|name| - 1]) && ':' !in name
    requires j < |Predicates|
    ensures GetPredicate(env, pre + name + ":" + Predicates[j].0 + post).Ok?
  {
    var key := Predicates[j].0;
    BuiltinKeysTrimmed(j);
    SplitPaddedTerm(pre, name, key, post);
    if PredicateKey(key) !in env {
      PredicateBuiltinFallback(env, pre + name + ":" + key + post, j);
    }
  }

  /** No built-in predicate key contains a connective. */
  lemma BuiltinKeysPlain(j: nat)
    requires j < |Predicates|
    ensures '|' !in Predicates[j].0 && '&' !in Predicates[j].0 && ':' !in Predicates[j].0
  {
  }

  /** The last term of a condition, padded on the left, resolves. */
  lemma {:induction false} LastTermResolves(env: Env, s: string, pre: string, name: string, j: nat)
    requires AllWhitespace(pre) && '|' !in pre && '&' !in pre
    requires name != [] && !IsWhitespace(name[0]) && !IsWhitespace(name[|name| - 1])
    requires ':' !in name && '|' !in name && '&' !in name
    requires j < |Predicates| && s == pre + name + ":" + Predicates[j].0
    ensures forall t :: t in Terms(s) ==> GetPredicate(env, t).Ok?
  {
    var key := Predicates[j].0;
    BuiltinKeysPlain(j);
    TermsSingle(s);
    assert pre + name + ":" + key + "" == s;
    PaddedTermResolves(env, pre, name, j, "");
  }

  /** A term followed by ` |` and further terms that resolve: all of them resolve. */
  lemma {:induction false} ConsTermResolves(env: Env, s: string, pre: string, name: string, j: nat, rest: string)
    requires AllWhitespace(pre) && '|' !in pre && '&' !in pre
    requires name != [] && !IsWhitespace(name[0]) && !IsWhitespace(name[|name| - 1])
    requires ':' !in name && '|' !in name && '&' !in name
    requires j < |Predicates| && s == pre + name + ":" + Predicates[j].0 + " |" + rest
    requires forall t :: t in Terms(rest) ==> GetPredicate(env, t).Ok?
    ensures forall t :: t in Terms(s) ==> GetPredicate(env, t).Ok?
  {
    var key := Predicates[j].0;
    var term := pre + name + ":" + key + " ";
    BuiltinKeysPlain(j);
    assert s == term + ['|'] + rest;
    TermsCons(term, '|', rest);
    PaddedTermResolves(env, pre, name, j, " ");
  }

  /** The first five built-in aliases are one term each, with a built-in key. */
  lemma {:induction false} FirstAliasesResolve(env: Env, i: nat)
    requires i < 5
    ensures forall t :: t in Terms(Aliases[i].1) ==> GetPredicate(env, t).Ok?
  {
    if i == 0 {
      LastTermResolves(env, Aliases[i].1, "", "linux", 2);
    } else if i == 1 {
      LastTermResolves(env, Aliases[i].1, "", "unix", 11);
    } else if i == 2 {
      LastTermResolves(env, Aliases[i].1, "", "windows", 11);
    } else if i == 3 {
      LastTermResolves(env, Aliases[i].1, "", "macos", 2);
    } else {
      LastTermResolves(env, Aliases[i].1, "", "android", 2);
    }
  }

  /** So are the next five. */
  lemma {:induction false} NextAliasesResolve(env: Env, i: nat)
    requires 5 <= i < 10
    ensures forall t :: t in Terms(Aliases[i].1) ==> GetPredicate(env, t).Ok?
  {
    if i == 5 {
      LastTermResolves(env, Aliases[i].1, "", "ios", 2);
    } else if i == 6 {
      LastTermResolves(env, Aliases[i].1, "", "wasm", 11);
    } else if i == 7 {
      LastTermResolves(env, Aliases[i].1, "", "doc", 11);
    } else if i == 8 {
      LastTermResolves(env, Aliases[i].1, "", "test", 11);
    } else {
      LastTermResolves(env, Aliases[i].1, "", "debug_assertions", 11);
    }
  }

  /** The last two terms of `desktop` resolve. */
  lemma {:induction false} DesktopTailResolves(env: Env, tail: string)
    requires tail == " windows:_ | macos:os"
    ensures forall t :: t in Terms(tail) ==> GetPredicate(env, t).Ok?
  {
    var macos := " macos:os";
    DesktopLastResolves(env, macos);
    ConsTermResolves(env, tail, " ", "windows", 11, macos);
  }

  /** The last term of `desktop` resolves. */
  lemma {:induction false} DesktopLastResolves(env: Env, last: string)
    requires last == " macos:os"
    ensures forall t :: t in Terms(last) ==> GetPredicate(env, t).Ok?
  {
    LastTermResolves(env, last, " ", "macos", 2);
  }

  /** The three terms of `desktop` resolve. */
  lemma {:induction false} DesktopTermsResolve(env: Env, s: string)
    requires s == Aliases[10].1
    ensures forall t :: t in Terms(s) ==> GetPredicate(env, t).Ok?
  {
    var tail := " windows:_ | macos:os";
    assert s == "linux:os |" + tail;
    assert Predicates[2].0 == "os";
    assert s == "" + "linux" + ":" + Predicates[2].0 + " |" + tail;
    DesktopTailResolves(env, tail);
    ConsTermResolves(env, s, "", "linux", 2, tail);
  }

  /** The two terms of `mobile` resolve. */
  lemma {:induction false} MobileTermsResolve(env: Env, s: string)
    requires s == Aliases[11].1
    ensures forall t :: t in Terms(s) ==> GetPredicate(env, t).Ok?
  {
    var ios := " ios:os";
    assert s == "android:os |" + ios;
    assert Predicates[2].0 == "os";
    assert s == "" + "android" + ":" + Predicates[2].0 + " |" + ios;
    LastTermResolves(env, ios, " ", "ios", 2);
    ConsTermResolves(env, s, "", "android", 2, ios);
  }

  /**
   * Table well-formedness: every term of every built-in alias expansion names
   * a built-in predicate key, so resolving it never fails, whatever the
   * environment overrides.
   */
  lemma {:induction false} BuiltinAliasTermsResolve(env: Env, i: nat)
    requires i < |Aliases|
    ensures forall t :: t in Terms(Aliases[i].1) ==> GetPredicate(env, t).Ok?
  {
    if i < 5 {
      FirstAliasesResolve(env, i);
    } else if i < 10 {
      NextAliasesResolve(env, i);
    } else if i == 10 {
      DesktopTermsResolve(env, Aliases[i].1);
    } else {
      MobileTermsResolve(env, Aliases[i].1);
    }
  }

  /** What an arm modifier does in a release build. */
  datatype ReleaseModifierBehaviour = Panic | Ignore

  /**
   * `get_release_modifier_behaviour`: modifiers panic in release builds
   * unless the configuration says exactly `ignore`; unset or any other value
   * means panic.
   */
  function GetReleaseModifierBehaviour(env: Env): (b: ReleaseModifierBehaviour)
    ensures b == Ignore <==> ModifierBehaviourKey in env && env[ModifierBehaviourKey] == "ignore"
  {
    if ModifierBehaviourKey !in env then Panic
    else if env[ModifierBehaviourKey] == "panic" then Panic
    else if env[ModifierBehaviourKey] == "ignore" then Ignore
    else Panic
  }

  /**
   * `is_nscfg_autodoc`: documentation labels are generated unless the
   * configuration says exactly `false`; unset or any other value means true.
   */
  function IsAutodoc(env: Env): (b: bool)
    ensures !b <==> AutoDocKey in env && env[AutoDocKey] == "false"
  {
    if AutoDocKey !in env then true
    else if env[AutoDocKey] == "true" then true
    else if env[AutoDocKey] == "false" then false
    else true
  }

  /** `format!("{}/{}", dir, "Cargo.toml")`. */
  function ManifestPath(dir: string): (path: string) {
    dir + "/" + CargoManifestName
  }

  /** A manifest that could be read and mentions the docs.rs metadata table. */
  predicate DocsRsTagged(content: Option<string>) {
    content.Some? && Contains(content.value, DocsRsTag)
  }

  /**
   * The process environment, which `if_docsrs_enabled` uses as a cache: the
   * first call reads the manifest and records its answer in
   * `CFG_BOOST_ATTR_DOC_SET`, later calls read the recorded answer.
   */
  class ProcessEnv {
    var vars: Env

    constructor(initial: Env)
      ensures vars == initial
    {
      vars := initial;
    }

    /**
     * `if_docsrs_enabled`. `readToString` stands for `fs::read_to_string`,
     * `None` for any read error. Cargo sets `CARGO_MANIFEST_DIR` for every
     * build; without it (and without a cached answer) the source panics.
     */
    method IfDocsRsEnabled(readToString: string -> Option<string>) returns (enabled: bool)
      requires CargoCacheKey in vars || CargoManifestDir in vars
      modifies this
      ensures CargoCacheKey in old(vars) ==>
        vars == old(vars) && enabled == (old(vars)[CargoCacheKey] == "true")
      ensures CargoCacheKey !in old(vars) ==>
        && enabled == DocsRsTagged(readToString(ManifestPath(old(vars)[CargoManifestDir])))
        && vars == old(vars)[CargoCacheKey := if enabled then "true" else "false"]
      ensures CargoCacheKey in vars && enabled == (vars[CargoCacheKey] == "true")
    {
      if CargoCacheKey in vars {
        enabled := vars[CargoCacheKey] == "true";
      } else {
        var path := ManifestPath(vars[CargoManifestDir]);
        match readToString(path)
        case Some(content) =>
          if Contains(content, DocsRsTag) {
            vars := vars[CargoCacheKey := "true"];
            enabled := true;
          } else {
            vars := vars[CargoCacheKey := "false"];
            enabled := false;
          }
        case None =>
          vars := vars[CargoCacheKey := "false"];
          enabled := false;
      }
    }
  }

  /**
   * Asking twice gives the same answer, and the second answer does not depend
   * on the file system at all: the manifest is read at most once per process.
   */
  method DocsRsAnswerIsCached(initial: Env, firstRead: string -> Option<string>, laterRead: string -> Option<string>)
    returns (first: bool, second: bool)
    requires CargoCacheKey in initial || CargoManifestDir in initial
    ensures second == first
    ensures CargoCacheKey in initial ==> first == (initial[CargoCacheKey] == "true")
    ensures CargoCacheKey !in initial ==> first == DocsRsTagged(firstRead(ManifestPath(initial[CargoManifestDir])))
  {
    var process := new ProcessEnv(initial);
    first := process.IfDocsRsEnabled(firstRead);
    second := process.IfDocsRsEnabled(laterRead);
  }
}
