/**
 * The compile cache of pkg/dvgrammar/evaluator.go: an expression is tokenized and
 * built into a tree, and with caching on, the tree of each expression text is kept
 * in the grammar rules and reused. The tokenizer, the tree builder and the tree
 * executor are parameters: their internals are not part of this model.
 */
module DvGrammar {
  import opened Wrappers

  /** The bytes of an expression; the cache key string(data) is these bytes themselves. */
  type Bytes = seq<bv8>

  /** The flag of the visitor options that turns the cache on (placeholder value). */
  const VisitorOptionCashed: bv64 := 1

  /** Compile: a tokenizer error is returned as is; otherwise the tree builder decides. */
  function Compile<Tok, Node>(data: Bytes, tokenize: Bytes -> Result<seq<Tok>, string>,
                              build: seq<Tok> -> Result<Node, string>): (r: Result<Node, string>)
    ensures r.Success? <==> tokenize(data).Success? && build(tokenize(data).value).Success?
    ensures tokenize(data).Failure? ==> r == Failure(tokenize(data).error)
    ensures tokenize(data).Success? && r.Failure? ==> r.error == build(tokenize(data).value).error
    ensures r.Success? ==> r.value == build(tokenize(data).value).value
  {
    var tokens := tokenize(data);
    if tokens.Failure? then Failure(tokens.error)
    else
      var tree := build(tokens.value);
      if tree.Failure? then Failure(tree.error) else Success(tree.value)
  }

  /** What evaluating an expression yields without any cache: compile, then execute the tree. */
  function Evaluate<Tok, Node, Value>(data: Bytes, tokenize: Bytes -> Result<seq<Tok>, string>,
                                      build: seq<Tok> -> Result<Node, string>,
                                      execute: Node -> Result<Value, string>): (r: Result<Value, string>)
    ensures Compile(data, tokenize, build).Failure? ==> r == Failure(Compile(data, tokenize, build).error)
    ensures Compile(data, tokenize, build).Success? ==> r == execute(Compile(data, tokenize, build).value)
  {
    match Compile(data, tokenize, build)
    case Failure(e) => Failure(e)
    case Success(tree) => execute(tree)
  }

  /** The grammar rules of an expression context, holding the cache; nil until first used. */
  class GrammarRules<Node(==)> {
    var cache: Option<map<Bytes, Node>>

    constructor ()
      ensures cache == None
    {
      cache := None;
    }

    /** The cached trees; an absent (nil) cache holds none. */
    function Entries(): map<Bytes, Node>
      reads this
    {
      if cache.Some? then cache.value else map[]
    }

    /** Every cached tree is the tree its text compiles to. */
    predicate Consistent<Tok>(tokenize: Bytes -> Result<seq<Tok>, string>, build: seq<Tok> -> Result<Node, string>)
      reads this
    {
      forall k :: k in Entries() ==> Compile(k, tokenize, build) == Success(Entries()[k])
    }

    /**
     * CompileOrCache: without caching the text is compiled and the cache left alone.
     * With caching the cache is created when nil; a hit is answered from it; a miss is
     * compiled, and only a successful tree is stored.
     */
    method CompileOrCache<Tok>(data: Bytes, useCache: bool, tokenize: Bytes -> Result<seq<Tok>, string>,
                               build: seq<Tok> -> Result<Node, string>) returns (r: Result<Node, string>)
      modifies this
      ensures !useCache ==> r == Compile(data, tokenize, build) && cache == old(cache)
      ensures useCache ==> cache.Some?
      ensures useCache && data in old(Entries()) ==> r == Success(old(Entries())[data]) && Entries() == old(Entries())
      ensures useCache && data !in old(Entries()) ==> r == Compile(data, tokenize, build)
      ensures useCache && data !in old(Entries()) && r.Success? ==> Entries() == old(Entries())[data := r.value]
      ensures useCache && data !in old(Entries()) && r.Failure? ==> Entries() == old(Entries())
    {
      if !useCache {
        r := Compile(data, tokenize, build);
        return;
      }
      if cache.None? {
        cache := Some(map[]);
      }
      if data in cache.value {
        return Success(cache.value[data]);
      }
      r := Compile(data, tokenize, build);
      if r.Failure? {
        return Failure(r.error);
      }
      cache := Some(cache.value[data := r.value]);
    }
  }

  /** A consistent cache is transparent: a cached compile gives what a fresh compile gives, and stays consistent. */
  method CachedCompileIsCompile<Tok, Node(==)>(rules: GrammarRules<Node>, data: Bytes, useCache: bool,
                                           tokenize: Bytes -> Result<seq<Tok>, string>,
                                           build: seq<Tok> -> Result<Node, string>) returns (r: Result<Node, string>)
    requires rules.Consistent(tokenize, build)
    modifies rules
    ensures r == Compile(data, tokenize, build)
    ensures rules.Consistent(tokenize, build)
  {
    r := rules.CompileOrCache(data, useCache, tokenize, build);
  }

  /** With caching on, a text compiled successfully once gets the very same tree the second time. */
  method CompileTwice<Tok, Node(==)>(rules: GrammarRules<Node>, data: Bytes,
                                 tokenize: Bytes -> Result<seq<Tok>, string>,
                                 build: seq<Tok> -> Result<Node, string>) returns (first: Result<Node, string>, second: Result<Node, string>)
    modifies rules
    ensures first.Success? ==> second == first
    ensures first.Failure? ==> second == Compile(data, tokenize, build)
  {
    first := rules.CompileOrCache(data, true, tokenize, build);
    second := rules.CompileOrCache(data, true, tokenize, build);
  }

  /** The parts of an ExpressionContext the evaluation reads. */
  class ExpressionContext<Node(==)> {
    var Rules: GrammarRules<Node>
    var VisitorOptions: bv64

    constructor (rules: GrammarRules<Node>, options: bv64)
      ensures Rules == rules && VisitorOptions == options
    {
      Rules, VisitorOptions := rules, options;
    }
  }

  /** Whether the visitor options ask for the cache. */
  predicate Cached(options: bv64) {
    options & VisitorOptionCashed != 0
  }

  /**
   * FastEvaluation: compiles through the cache when the options ask for it and runs
   * the tree; a compile error is returned without running anything.
   */
  method FastEvaluation<Tok, Node(==), Value(==)>(data: Bytes, context: ExpressionContext<Node>,
                                          tokenize: Bytes -> Result<seq<Tok>, string>,
                                          build: seq<Tok> -> Result<Node, string>,
                                          execute: Node -> Result<Value, string>) returns (r: Result<Value, string>)
    modifies context.Rules
    ensures !Cached(context.VisitorOptions) ==>
      r == Evaluate(data, tokenize, build, execute) && context.Rules.cache == old(context.Rules.cache)
    ensures Cached(context.VisitorOptions) ==> context.Rules.cache.Some?
    ensures Cached(context.VisitorOptions) && data in old(context.Rules.Entries()) ==>
      r == execute(old(context.Rules.Entries())[data]) && context.Rules.Entries() == old(context.Rules.Entries())
    ensures Cached(context.VisitorOptions) && data !in old(context.Rules.Entries()) ==>
      r == Evaluate(data, tokenize, build, execute)
    ensures Cached(context.VisitorOptions) && data !in old(context.Rules.Entries()) ==>
      context.Rules.Entries() == if Compile(data, tokenize, build).Success?
        then old(context.Rules.Entries())[data := Compile(data, tokenize, build).value]
        else old(context.Rules.Entries())
    ensures old(context.Rules.Consistent(tokenize, build)) ==>
      r == Evaluate(data, tokenize, build, execute) && context.Rules.Consistent(tokenize, build)
  {
    var cache := context.VisitorOptions & VisitorOptionCashed != 0;
    var tree := context.Rules.CompileOrCache(data, cache, tokenize, build);
    if tree.Failure? {
      return Failure(tree.error);
    }
    r := execute(tree.value);
  }
}
