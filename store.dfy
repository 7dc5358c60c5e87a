/**
 * The store collaborator's interface: the calls a repository issues to the
 * underlying entity model, each with the options record it passes. The store
 * itself (and every answer it gives) is outside the model; answers are
 * parameters of the operations that need them.
 */
module Store {
  import opened Wrappers
  import opened JsValues

  /** The entity model a repository was constructed with. */
  datatype StoreModel = StoreModel(name: string)

  /** `{ all: true }`: eager-load every association. */
  const IncludeAll: Value := Obj(map["all" := Bool(true)])

  /**
   * The query options record. `limit` and `offset` are `None` when the call
   * does not pass them; `where`, `order` and `includes` (the `include` key) are `Undefined` then.
   */
  datatype QueryOptions = QueryOptions(where: Value, limit: Option<int>, offset: Option<int>, order: Value, includes: Value)

  datatype StoreOp =
    | FindAll(options: QueryOptions)
    | FindOne(options: QueryOptions)
    | FindAndCountAll(options: QueryOptions)
    | Upsert(values: Record, upsertOptions: Value)
    | Sum(field: string, sumOptions: Option<Value>)

  /** One call on a store model. */
  datatype Request = Request(store: StoreModel, op: StoreOp)
}
