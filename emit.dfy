/**
 * What the three macros emit. Token streams are sequences of token trees.
 * The arm splitter (`TargetArm::extract`) and the item splitter
 * (`syntax::split_items`) are not part of this model: they are parameters,
 * and everything here holds whatever they return.
 */
module Emit {

  datatype Delimiter = Parenthesis | Brace | Bracket | NoDelimiter

  datatype Spacing = Alone | Joint

  datatype TokenTree =
    | Ident(name: string)
    | Punct(ch: char, spacing: Spacing)
    | Literal(text: string)
    | Group(delimiter: Delimiter, stream: seq<TokenTree>)

  type TokenStream = seq<TokenTree>

  /** Which macro the arms are extracted for. */
  datatype MacroSource = TargetMacro | MatchMacro

  /**
   * One arm once extracted: the `#[cfg(...)]` header it compiles to, the
   * attribute header that goes with it (documentation labels), and the arm's
   * content.
   */
  datatype TargetArm = TargetArm(cfgTs: TokenStream, attrTs: TokenStream, content: TokenStream)

  /** `TargetArm::extract`, given as a parameter. */
  type Extractor = (TokenStream, MacroSource) -> seq<TargetArm>

  /** `syntax::split_items`, given as a parameter. */
  type ItemSplitter = TokenStream -> seq<TokenStream>

  /** One emitted item with the two headers it is emitted under. */
  datatype Block = Block(cfgTs: TokenStream, attrTs: TokenStream, item: TokenStream)

  /** The blocks of one arm: its two headers repeated in front of each of its items. */
  function ArmBlocks(arm: TargetArm, items: seq<TokenStream>): (bs: seq<Block>)
  {
    seq(|items|, k requires 0 <= k < |items| => Block(arm.cfgTs, arm.attrTs, items[k]))
  }

  /** The blocks of all arms, arm after arm, each arm's items in order. */
  function Blocks(arms: seq<TargetArm>, split: ItemSplitter): (bs: seq<Block>)
  {
    if arms == [] then []
    else Blocks(arms[..|arms| - 1], split) + ArmBlocks(arms[|arms| - 1], split(arms[|arms| - 1].content))
  }

  /** How many items the arms split into, all arms together. */
  function TotalItems(arms: seq<TargetArm>, split: ItemSplitter): (n: nat)
  {
    if arms == [] then 0
    else TotalItems(arms[..|arms| - 1], split) + |split(arms[|arms| - 1].content)|
  }

  /** The token stream of a run of blocks: each block's cfg header, attribute header, then item. */
  function Render(bs: seq<Block>): (ts: TokenStream)
  {
    if bs == [] then []
    else
      var b := bs[|bs| - 1];
      Render(bs[..|bs| - 1]) + b.cfgTs + b.attrTs + b.item
  }

  /** Blocks of concatenated arm lists are the concatenated blocks. */
  lemma {:induction false} BlocksAppend(a: seq<TargetArm>, b: seq<TargetArm>, split: ItemSplitter)
    ensures Blocks(a + b, split) == Blocks(a, split) + Blocks(b, split)
    decreases |b|
  {
    if b == [] {
      assert a + b == a;
    } else {
      assert (a + b)[..|a + b| - 1] == a + b[..|b| - 1];
      BlocksAppend(a, b[..|b| - 1], split);
    }
  }

  /** Header replication: there is one block, hence one pair of headers, per item. */
  lemma {:induction false} BlocksCount(arms: seq<TargetArm>, split: ItemSplitter)
    ensures |Blocks(arms, split)| == TotalItems(arms, split)
    decreases |arms|
  {
    if arms != [] {
      BlocksCount(arms[..|arms| - 1], split);
    }
  }

  /** Arm `i`'s blocks sit between the blocks of the arms before it and those after it. */
  lemma {:induction false} BlocksAround(arms: seq<TargetArm>, split: ItemSplitter, i: nat)
    requires i < |arms|
    ensures Blocks(arms, split)
      == Blocks(arms[..i], split) + ArmBlocks(arms[i], split(arms[i].content)) + Blocks(arms[i + 1..], split)
  {
    assert arms == (arms[..i] + [arms[i]]) + arms[i + 1..];
    BlocksAppend(arms[..i] + [arms[i]], arms[i + 1..], split);
    BlocksAppend(arms[..i], [arms[i]], split);
    assert [arms[i]][..0] == [];
  }

  /**
   * Order and verbatim items: the `j`-th item of arm `i` is block number
   * (items of the arms before `i`) + `j`, under arm `i`'s own two headers.
   */
  lemma {:induction false} BlockOfItem(arms: seq<TargetArm>, split: ItemSplitter, i: nat, j: nat)
    requires i < |arms| && j < |split(arms[i].content)|
    ensures TotalItems(arms[..i], split) + j < |Blocks(arms, split)|
    ensures Blocks(arms, split)[TotalItems(arms[..i], split) + j]
      == Block(arms[i].cfgTs, arms[i].attrTs, split(arms[i].content)[j])
  {
    BlocksAround(arms, split, i);
    BlocksCount(arms[..i], split);
  }

  /** An arm whose content splits into no items emits nothing, wherever it stands. */
  lemma {:induction false} EmptyArmEmitsNothing(before: seq<TargetArm>, arm: TargetArm, after: seq<TargetArm>, split: ItemSplitter)
    requires split(arm.content) == []
    ensures Blocks(before + [arm] + after, split) == Blocks(before + after, split)
  {
    BlocksAppend(before + [arm], after, split);
    BlocksAppend(before, [arm], split);
    assert [arm][..0] == [];
    BlocksAppend(before, after, split);
  }

  /** Rendering distributes over concatenation. */
  lemma {:induction false} RenderAppend(a: seq<Block>, b: seq<Block>)
    ensures Render(a + b) == Render(a) + Render(b)
    decreases |b|
  {
    if b == [] {
      assert a + b == a;
    } else {
      assert (a + b)[..|a + b| - 1] == a + b[..|b| - 1];
      RenderAppend(a, b[..|b| - 1]);
    }
  }

  /**
   * Each block's item is emitted exactly where its headers end: the output
   * is the rendering of the blocks before it, its cfg header, its attribute
   * header, its item, then the rendering of the blocks after it.
   */
  lemma {:induction false} RenderAround(bs: seq<Block>, k: nat)
    requires k < |bs|
    ensures Render(bs) == Render(bs[..k]) + bs[k].cfgTs + bs[k].attrTs + bs[k].item + Render(bs[k + 1..])
  {
    assert bs == (bs[..k] + [bs[k]]) + bs[k + 1..];
    RenderAppend(bs[..k] + [bs[k]], bs[k + 1..]);
    RenderAppend(bs[..k], [bs[k]]);
    assert [bs[k]][..0] == [];
  }

  /**
   * `target_cfg`: for each arm in order, for each of its items in order, the
   * arm's cfg header, its attribute header, then the item.
   */
  method TargetCfg(item: TokenStream, extract: Extractor, split: ItemSplitter) returns (content: TokenStream)
    ensures content == Render(Blocks(extract(item, TargetMacro), split))
  {
    content := [];
    var arms := extract(item, TargetMacro);
    for i := 0 to |arms|
      invariant content == Render(Blocks(arms[..i], split))
    {
      var arm := arms[i];
      var items := split(arm.content);
      ghost var done := Blocks(arms[..i], split);
      assert done + ArmBlocks(arm, items[..0]) == done;
      for j := 0 to |items|
        invariant content == Render(done + ArmBlocks(arm, items[..j]))
      {
        RenderNextItem(done, arm, items, j);
        content := content + arm.cfgTs;
        content := content + arm.attrTs;
        content := content + items[j];
      }
      assert items[..|items|] == items;
      BlocksNextArm(arms, i, split);
    }
    assert arms[..|arms|] == arms;
  }

  /** One more item of the current arm renders as its two headers and itself. */
  lemma RenderNextItem(done: seq<Block>, arm: TargetArm, items: seq<TokenStream>, j: nat)
    requires j < |items|
    ensures Render(done + ArmBlocks(arm, items[..j + 1]))
      == Render(done + ArmBlocks(arm, items[..j])) + arm.cfgTs + arm.attrTs + items[j]
  {
    var longer := done + ArmBlocks(arm, items[..j + 1]);
    assert longer[..|longer| - 1] == done + ArmBlocks(arm, items[..j]);
  }

  /** One more arm adds its blocks after the blocks so far. */
  lemma BlocksNextArm(arms: seq<TargetArm>, i: nat, split: ItemSplitter)
    requires i < |arms|
    ensures Blocks(arms[..i + 1], split) == Blocks(arms[..i], split) + ArmBlocks(arms[i], split(arms[i].content))
  {
    assert arms[..i + 1][..i] == arms[..i];
  }

  /** The body of a `match_cfg` expansion: each arm's cfg header, then its content in braces. */
  function MatchBody(arms: seq<TargetArm>): (ts: TokenStream)
  {
    if arms == [] then []
    else
      var arm := arms[|arms| - 1];
      MatchBody(arms[..|arms| - 1]) + arm.cfgTs + [Group(Brace, arm.content)]
  }

  lemma {:induction false} MatchBodyAppend(a: seq<TargetArm>, b: seq<TargetArm>)
    ensures MatchBody(a + b) == MatchBody(a) + MatchBody(b)
    decreases |b|
  {
    if b == [] {
      assert a + b == a;
    } else {
      assert (a + b)[..|a + b| - 1] == a + b[..|b| - 1];
      MatchBodyAppend(a, b[..|b| - 1]);
    }
  }

  /** Arm `i` contributes its cfg header and one braced group holding exactly its content, in place. */
  lemma {:induction false} MatchArmAt(arms: seq<TargetArm>, i: nat)
    requires i < |arms|
    ensures MatchBody(arms) == MatchBody(arms[..i]) + arms[i].cfgTs + [Group(Brace, arms[i].content)] + MatchBody(arms[i + 1..])
  {
    assert arms == (arms[..i] + [arms[i]]) + arms[i + 1..];
    MatchBodyAppend(arms[..i] + [arms[i]], arms[i + 1..]);
    MatchBodyAppend(arms[..i], [arms[i]]);
    assert [arms[i]][..0] == [];
  }

  /** `match_cfg` never emits attribute headers: arms differing only there give the same body. */
  lemma {:induction false} MatchBodyIgnoresAttr(a: seq<TargetArm>, b: seq<TargetArm>)
    requires |a| == |b|
    requires forall k :: 0 <= k < |a| ==> a[k].cfgTs == b[k].cfgTs && a[k].content == b[k].content
    ensures MatchBody(a) == MatchBody(b)
    decreases |a|
  {
    if a != [] {
      MatchBodyIgnoresAttr(a[..|a| - 1], b[..|b| - 1]);
    }
  }

  /**
   * `match_cfg`: one brace group holding, for each arm in order, its cfg
   * header followed by its content in braces.
   */
  method MatchCfg(item: TokenStream, extract: Extractor) returns (out: TokenStream)
    ensures out == [Group(Brace, MatchBody(extract(item, MatchMacro)))]
  {
    var content: TokenStream := [];
    var arms := extract(item, MatchMacro);
    for i := 0 to |arms|
      invariant content == MatchBody(arms[..i])
    {
      assert arms[..i + 1][..i] == arms[..i];
      content := content + arms[i].cfgTs;
      content := content + [Group(Brace, arms[i].content)];
    }
    assert arms[..|arms|] == arms;
    out := [Group(Brace, content)];
  }

  /** The `target_cfg!` input `meta_cfg` builds: the predicate, `=>`, and the item in braces. */
  function MetaCfgInput(attr: TokenStream, item: TokenStream): (s: TokenStream)
  {
    attr + [Punct('=', Joint), Punct('>', Alone)] + [Group(Brace, item)]
  }

  /** `meta_cfg`: a single-arm `target_cfg!` invocation of the predicate on the braced item. */
  method MetaCfg(attr: TokenStream, item: TokenStream, extract: Extractor, split: ItemSplitter) returns (out: TokenStream)
    ensures out == Render(Blocks(extract(MetaCfgInput(attr, item), TargetMacro), split))
  {
    var stream := attr;
    stream := stream + [Punct('=', Joint), Punct('>', Alone)];
    stream := stream + [Group(Brace, item)];
    out := TargetCfg(stream, extract, split);
  }
}
