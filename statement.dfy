/** The `Statement` struct of `src/lib.rs` and its `Drop` impl. */
module Statements {
  import opened Sqlite

  /** `Statement`: owns one `sqlite3_stmt*`. */
  class Statement {
    const engine: Engine
    var stmt: Handle

    constructor (engine: Engine, stmt: Handle)
      ensures this.engine == engine && this.stmt == stmt
    {
      this.engine := engine;
      this.stmt := stmt;
    }

    /** `Drop for Statement`: finalizes the handle once, then nulls the field. */
    method Drop()
      modifies this, engine
      ensures engine.log == old(engine.log) + [Finalize(old(stmt))]
      ensures stmt == Null
    {
      var _ := engine.Invoke(Finalize(stmt));
      stmt := Null;
    }
  }
}
