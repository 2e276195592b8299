/**
 * The values the import scripts handle: a parsed CSV row, and the
 * JavaScript object that becomes an indexed document.
 *
 * Float and integer parsing are not interpreted. A number computed by
 * `parseFloat`, `parseInt` or `toFixed` is kept as the unevaluated
 * application to its argument. Two such terms are equal exactly when their
 * arguments are; this holds of the model's terms, not of JavaScript
 * numbers, where `parseFloat("1")` and `parseFloat("1.0")` are the same.
 */
module Json {

  /** One row as the CSV parser hands it over: column name to raw text. */
  type Row = map<string, string>

  /** A number in a document. */
  datatype Numeric =
    | Literal(r: real)                 // a numeric literal of the script
    | ParseFloat(arg: Value)           // parseFloat(arg)
    | ParseInt(arg: Value, radix: nat) // parseInt(arg, radix)

  /** A JavaScript value stored under a document field. */
  datatype Value =
    | Undefined                        // what reading an absent column yields
    | Str(s: string)
    | Num(n: Numeric)
    | Fixed(n: Numeric)                // the string n.toFixed()
    | Array(items: seq<Numeric>)

  /**
   * A document: field to value. Each script names its fields with its own
   * enumeration; a field that is not set is not a key.
   */
  type Document<F> = map<F, Value>

  /** `data[column]` in JavaScript: the raw text, or undefined when the row has no such column. */
  function Cell(row: Row, column: string): (value: Value) {
    if column in row then Str(row[column]) else Undefined
  }

  /** The part of a row whose columns lie in `columns`. */
  function Restrict(row: Row, columns: set<string>): (restricted: Row) {
    map c | c in row && c in columns :: row[c]
  }

  /** The numbers of a literal array, such as a station's location. */
  function Literals(rs: seq<real>): (ns: seq<Numeric>)
    ensures |ns| == |rs|
    ensures forall i :: 0 <= i < |rs| ==> ns[i] == Literal(rs[i])
  {
    if rs == [] then [] else [Literal(rs[0])] + Literals(rs[1..])
  }

  /** Adding a column the row has to the restriction. */
  lemma RestrictInsert(row: Row, columns: set<string>, column: string)
    requires column in row
    ensures Restrict(row, columns)[column := row[column]] == Restrict(row, columns + {column})
  {
  }
}
