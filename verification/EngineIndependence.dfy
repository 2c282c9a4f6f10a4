/** A query means the same to every engine, so moving it from one to another changes no page. */
module EngineIndependence {
  import opened Wrappers
  import opened Template
  import opened TemplateReading
  import opened TemplateRewriters
  import opened SqlValues
  import opened Paging

  /** What statements mean: what a database with certain contents answers to them. */
  type Contents = seq<Item> -> Result<ResultSet, Error>

  /** A database of some engine with these contents: it reads text and arguments by the engine's placeholder rule. */
  ghost predicate Holds(engine: Engine, db: Db, contents: Contents) {
    forall text, args :: db(text, args) == match Read(engine, text, args, 0)
                                           case Some(items) => contents(items)
                                           case None => Err(QueryFailed)
  }

  /** Nothing in the statement for this page can be mistaken. */
  ghost predicate ClearFor(engine: Engine, query: string, ctx: PageCtx) {
    AllKnown(Lex(query), PageVars(ctx)) ==> AllClear(engine, Meaning(Lex(query), PageVars(ctx)))
  }

  lemma AnswersMeaning(engine: Engine, db: Db, contents: Contents, query: string, ctx: PageCtx)
    requires Holds(engine, db, contents) && ClearFor(engine, query, ctx)
    ensures match Rewrite(engine, query, PageVars(ctx))
            case Err(e) => !AllKnown(Lex(query), PageVars(ctx)) && e == BadTemplate(Errors(Lex(query), PageVars(ctx)))
            case Ok(s) => AllKnown(Lex(query), PageVars(ctx))
                          && db(s.text, s.args) == contents(Meaning(Lex(query), PageVars(ctx)))
  {
    if AllKnown(Lex(query), PageVars(ctx)) { RewritePreservesMeaning(engine, query, PageVars(ctx)); }
  }

  /** Two databases with the same contents deliver the same page of a paginated query, whatever their engines. */
  lemma EngineDoesNotMatter<A>(e1: Engine, db1: Db, e2: Engine, db2: Db, contents: Contents, page: PageToken,
                               query: string, opts: Pagination, callback: (A, RowMap) -> Reply<A>, acc: A)
    requires Holds(e1, db1, contents) && Holds(e2, db2, contents)
    requires var ctx := SetupPagination(page, Some(opts));
             ctx.Ok? && ctx.value.Some? ==> ClearFor(e1, query, ctx.value.value) && ClearFor(e2, query, ctx.value.value)
    ensures QueryPage(e1, db1, page, query, Some(opts), callback, acc) ==
            QueryPage(e2, db2, page, query, Some(opts), callback, acc)
  {
    var ctx := SetupPagination(page, Some(opts));
    if ctx.Ok? {
      AnswersMeaning(e1, db1, contents, query, ctx.value.value);
      AnswersMeaning(e2, db2, contents, query, ctx.value.value);
    }
  }
}
