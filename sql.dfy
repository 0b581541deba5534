/** The text of a parameterised `INSERT` statement, as the ingest package builds it with an
    f-string, and where its "?" placeholders can be. */
module Sql {
  import opened Strings

  /** The f-string `f"INSERT INTO {table_name} ({columns}) VALUES ({placeholders})"`. */
  function InsertStatement(tableName: string, columns: string, placeholders: string): string {
    "INSERT INTO " + tableName + " (" + columns + ") VALUES (" + placeholders + ")"
  }

  /** The statement starts with its table and then lists its columns. */
  lemma {:induction false} InsertStatementParts(tableName: string, columns: string, placeholders: string)
    ensures var head := "INSERT INTO " + tableName + " (";
      && head <= InsertStatement(tableName, columns, placeholders)
      && columns <= InsertStatement(tableName, columns, placeholders)[|head|..]
  {
    var head := "INSERT INTO " + tableName + " (";
    var rest := ") VALUES (" + placeholders + ")";
    assert InsertStatement(tableName, columns, placeholders) == head + (columns + rest);
    assert (head + (columns + rest))[|head|..] == columns + rest;
  }

  /** Every "?" of the statement is in the table name, the column list or the placeholders. */
  lemma {:induction false} InsertStatementMarks(tableName: string, columns: string, placeholders: string)
    ensures CountChar(InsertStatement(tableName, columns, placeholders), '?') ==
      CountChar(tableName, '?') + CountChar(columns, '?') + CountChar(placeholders, '?')
  {
    CountSeven("INSERT INTO ", tableName, " (", columns, ") VALUES (", placeholders, ")");
  }

  /** Counting over seven pieces where the fixed ones hold no "?". */
  lemma {:induction false} CountSeven(a: string, t: string, b: string, cols: string, c: string, p: string, d: string)
    requires '?' !in a && '?' !in b && '?' !in c && '?' !in d
    ensures CountChar(a + t + b + cols + c + p + d, '?') == CountChar(t, '?') + CountChar(cols, '?') + CountChar(p, '?')
  {
    CountCharAbsent(a, '?');
    CountCharAbsent(b, '?');
    CountCharAbsent(c, '?');
    CountCharAbsent(d, '?');
    CountCharAppend(a, t, '?');
    CountCharAppend(a + t, b, '?');
    CountCharAppend(a + t + b, cols, '?');
    CountCharAppend(a + t + b + cols, c, '?');
    CountCharAppend(a + t + b + cols + c, p, '?');
    CountCharAppend(a + t + b + cols + c + p, d, '?');
  }
}
