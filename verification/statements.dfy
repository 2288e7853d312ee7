/** Migration statements: their type, and the strategy each type gets. */
module Statements {
  import opened Text

  datatype MigrationType = CreateTable | DropTable | AlterTable | AlterDatabase | Unsupported

  datatype Strategy = Manual | Direct | Ghost

  function GetMigrationType(statement: string): MigrationType {
    if "CREATE TABLE" <= statement then CreateTable
    else if "DROP TABLE" <= statement then DropTable
    else if "RENAME TABLE" <= statement && HasSuffix(statement, "_DRP") then DropTable
    else if "ALTER TABLE" <= statement then AlterTable
    else if "ALTER DATABASE" <= statement then AlterDatabase
    else Unsupported
  }

  function StrategyFor(kind: MigrationType, allowAuto: bool): Strategy {
    if !allowAuto then Manual else
    match kind
    case CreateTable => Direct
    case DropTable => Direct
    case AlterTable => Ghost
    case AlterDatabase => Manual
    case Unsupported => Manual
  }

  function EvaluateStrategy(statement: string, allowAuto: bool): Strategy {
    StrategyFor(GetMigrationType(statement), allowAuto)
  }

  /** What is promised of a strategy, in terms of how the statement begins. */
  predicate StrategyFits(statement: string, allowAuto: bool, strategy: Strategy) {
    && (!allowAuto ==> strategy == Manual)
    && (allowAuto && ("CREATE TABLE" <= statement || "DROP TABLE" <= statement) ==> strategy == Direct)
    && (allowAuto && "RENAME TABLE" <= statement ==>
          strategy == if HasSuffix(statement, "_DRP") then Direct else Manual)
    && (allowAuto && "ALTER TABLE" <= statement ==> strategy == Ghost)
    && (allowAuto && "ALTER DATABASE" <= statement ==> strategy == Manual)
  }

  /** Nothing runs by itself unless that is allowed; then tables are made and dropped directly and altered by gh-ost. */
  lemma EvaluatedStrategyFits(statement: string, allowAuto: bool)
    ensures StrategyFits(statement, allowAuto, EvaluateStrategy(statement, allowAuto))
  {
    if |statement| > 6 {
      var first, seventh := statement[0], statement[6];
      assert "CREATE TABLE" <= statement ==> first == 'C';
      assert "DROP TABLE" <= statement ==> first == 'D';
      assert "RENAME TABLE" <= statement ==> first == 'R';
      assert "ALTER TABLE" <= statement ==> first == 'A' && seventh == 'T';
      assert "ALTER DATABASE" <= statement ==> first == 'A' && seventh == 'D';
    }
  }
}
