/** The row-lock selector of src/lock.rs: a builder with a sticky first error, the SQL text it
    generates, and a reader for that text. */
module RowLocks {
  import opened Common
  import opened Decimals

  datatype Value = Null | Scalar(content: string)

  datatype Error =
    | BadIdentifier
    | DuplicateColumn
    | Encode(parameter: nat)
    | NullKey
    | EmptySelector

  /** An argument of `key`: a column and what its value encodes to, if it does. */
  datatype Call = Call(column: string, encoded: Option<Value>)

  datatype Key = Key(column: string, value: Value)

  predicate IsAlpha(c: char) {
    'a' <= c <= 'z' || 'A' <= c <= 'Z'
  }

  /** A simple ASCII name of at most 63 bytes. */
  predicate Identifier(name: string) {
    && 0 < |name| <= 63
    && (IsAlpha(name[0]) || name[0] == '_')
    && forall i :: 0 <= i < |name| ==> IsAlpha(name[i]) || IsDigit(name[i]) || name[i] == '_'
  }

  // ---------------------------------------------------------------- builder

  datatype Builder = Builder(table: string, keys: seq<Key>, error: Option<Error>)

  function Row(table: string): Builder {
    Builder(table, [], if Identifier(table) then None else Some(BadIdentifier))
  }

  predicate HasColumn(keys: seq<Key>, column: string) {
    exists i :: 0 <= i < |keys| && keys[i].column == column
  }

  function AddKey(b: Builder, call: Call): Builder {
    if b.error.Some? then b
    else if !Identifier(call.column) then b.(error := Some(BadIdentifier))
    else if HasColumn(b.keys, call.column) then b.(error := Some(DuplicateColumn))
    else if call.encoded.None? then b.(error := Some(Encode(|b.keys| + 1)))
    else if call.encoded.value.Null? then b.(error := Some(NullKey))
    else b.(keys := b.keys + [Key(call.column, call.encoded.value)])
  }

  function Build(table: string, calls: seq<Call>): Builder {
    if calls == [] then Row(table)
    else AddKey(Build(table, calls[..|calls| - 1]), calls[|calls| - 1])
  }

  function Columns(keys: seq<Key>): seq<string> {
    seq(|keys|, i requires 0 <= i < |keys| => keys[i].column)
  }

  function Values(keys: seq<Key>): seq<Value> {
    seq(|keys|, i requires 0 <= i < |keys| => keys[i].value)
  }

  // ---------------------------------------------------------------- generated text

  function Opening(): string { "SELECT 1 AS sqly_lock_match FROM \"" }
  function Where(): string { "\" WHERE " }
  function And(): string { " AND " }
  function Placeholder(): string { "\" = $" }
  function Limit(): string { " LIMIT 2" }
  function ForUpdate(): string { " FOR UPDATE" }

  function Condition(column: string, number: nat): string {
    "\"" + column + Placeholder() + Print(number)
  }

  /** The conditions from column `i` on, each after the first preceded by AND. */
  function Conditions(columns: seq<string>, i: nat): string
    requires i <= |columns|
    decreases |columns| - i
  {
    if i == |columns| then ""
    else (if i != 0 then And() else "") + Condition(columns[i], i + 1) + Conditions(columns, i + 1)
  }

  function Tail(postgres: bool): string {
    Limit() + if postgres then ForUpdate() else ""
  }

  function Text(table: string, columns: seq<string>, postgres: bool): string {
    Opening() + table + Where() + Conditions(columns, 0) + Tail(postgres)
  }

  datatype Generated = Generated(sql: string, values: seq<Value>)

  function Statement(b: Builder, postgres: bool): Result<Generated, Error> {
    if b.error.Some? then Failure(b.error.value)
    else if b.keys == [] then Failure(EmptySelector)
    else Success(Generated(Text(b.table, Columns(b.keys), postgres), Values(b.keys)))
  }

  lemma Reassociates(a: string, b: string, c: string, d: string)
    ensures a + b + c + d == a + (b + c + d) && a + c + d == a + ("" + c + d)
  {
  }

  lemma WritesOne(sql: string, columns: seq<string>, i: nat)
    requires i < |columns|
    ensures (if i != 0 then sql + And() else sql) + Condition(columns[i], i + 1) + Conditions(columns, i + 1) ==
            sql + Conditions(columns, i)
  {
    hide Condition, And;
    Reassociates(sql, And(), Condition(columns[i], i + 1), Conditions(columns, i + 1));
  }

  /** The builder as an object whose `key` calls update it in place. */
  class Lock {
    var table: string
    var keys: seq<Key>
    var error: Option<Error>

    ghost function State(): Builder
      reads this
    {
      Builder(table, keys, error)
    }

    constructor (table: string)
      ensures State() == Row(table)
    {
      this.table, keys := table, [];
      error := if Identifier(table) then None else Some(BadIdentifier);
    }

    method AddColumn(column: string, encoded: Option<Value>)
      modifies this
      ensures State() == AddKey(old(State()), Call(column, encoded))
    {
      if error.Some? {
        return;
      }
      if !Identifier(column) {
        error := Some(BadIdentifier);
        return;
      }
      for i := 0 to |keys|
        invariant error.None? && keys == old(keys) && table == old(table)
        invariant forall j :: 0 <= j < i ==> keys[j].column != column
      {
        if keys[i].column == column {
          error := Some(DuplicateColumn);
          return;
        }
      }
      if encoded.None? {
        error := Some(Encode(|keys| + 1));
      } else if encoded.value.Null? {
        error := Some(NullKey);
      } else {
        keys := keys + [Key(column, encoded.value)];
      }
    }

    /** The loop that writes the SQL text and collects the values. */
    method Generate(postgres: bool) returns (r: Result<Generated, Error>)
      ensures r == Statement(State(), postgres)
    {
      if error.Some? {
        return Failure(error.value);
      }
      if keys == [] {
        return Failure(EmptySelector);
      }
      hide Opening, Where, And, Limit, ForUpdate, Condition;
      var sql := Opening() + table + Where();
      var values := [];
      for index := 0 to |keys|
        invariant sql + Conditions(Columns(keys), index) == Opening() + table + Where() + Conditions(Columns(keys), 0)
        invariant values == Values(keys)[..index]
      {
        WritesOne(sql, Columns(keys), index);
        if index != 0 {
          sql := sql + And();
        }
        sql := sql + Condition(keys[index].column, index + 1);
        values := values + [keys[index].value];
      }
      assert sql + "" == sql;
      ghost var head := sql;
      sql := sql + Limit();
      if postgres {
        sql := sql + ForUpdate();
      }
      assert sql == head + Tail(postgres);
      assert values == Values(keys);
      return Success(Generated(sql, values));
    }
  }

  // ---------------------------------------------------------------- which builders succeed

  /** The first thing wrong with call `i`, in the order `key` looks for it. */
  function CallFault(calls: seq<Call>, i: nat): Option<Error>
    requires i < |calls|
  {
    if !Identifier(calls[i].column) then Some(BadIdentifier)
    else if exists j :: 0 <= j < i && calls[j].column == calls[i].column then Some(DuplicateColumn)
    else if calls[i].encoded.None? then Some(Encode(i + 1))
    else if calls[i].encoded.value.Null? then Some(NullKey)
    else None
  }

  predicate Faultless(calls: seq<Call>, n: nat)
    requires n <= |calls|
  {
    forall i :: 0 <= i < n ==> CallFault(calls, i).None?
  }

  /** The call that fails first. */
  predicate FailsFirst(calls: seq<Call>, i: nat) {
    i < |calls| && Faultless(calls, i) && CallFault(calls, i).Some?
  }

  function Accepted(calls: seq<Call>): seq<Key>
    requires Faultless(calls, |calls|)
  {
    seq(|calls|, i requires 0 <= i < |calls| =>
      assert CallFault(calls, i).None?; Key(calls[i].column, calls[i].encoded.value))
  }

  lemma FaultOfPrefix(calls: seq<Call>, n: nat, i: nat)
    requires i < n <= |calls|
    ensures CallFault(calls[..n], i) == CallFault(calls, i)
  {
    assert forall j :: 0 <= j <= i ==> calls[..n][j] == calls[j];
  }

  lemma {:induction false} BuildMeaning(table: string, calls: seq<Call>)
    requires Identifier(table)
    ensures var b := Build(table, calls);
      && b.table == table
      && (Faultless(calls, |calls|) ==> b.error.None? && b.keys == Accepted(calls))
      && (!Faultless(calls, |calls|) ==>
            exists i :: FailsFirst(calls, i) && b.error == CallFault(calls, i))
    decreases |calls|
  {
    if calls != [] {
      var n := |calls| - 1;
      var before := calls[..n];
      BuildMeaning(table, before);
      forall i | 0 <= i < n ensures CallFault(before, i) == CallFault(calls, i) {
        FaultOfPrefix(calls, n, i);
      }
      if Faultless(before, n) {
        assert Faultless(calls, n) by {
          forall i | 0 <= i < n ensures CallFault(calls, i).None? { assert CallFault(before, i).None?; }
        }
        LastCall(table, calls);
      } else {
        var i: nat :| FailsFirst(before, i) && Build(table, before).error == CallFault(before, i);
        assert Faultless(calls, i) by {
          forall k | 0 <= k < i ensures CallFault(calls, k).None? { assert CallFault(before, k).None?; }
        }
        assert FailsFirst(calls, i);
      }
    }
  }

  /** The last of several calls, all earlier ones having been accepted. */
  lemma LastCall(table: string, calls: seq<Call>)
    requires calls != [] && Faultless(calls, |calls| - 1)
    requires var n := |calls| - 1;
      && Faultless(calls[..n], n)
      && Build(table, calls[..n]) == Builder(table, Accepted(calls[..n]), None)
    ensures var b, n := Build(table, calls), |calls| - 1;
      && b.table == table
      && b.error == CallFault(calls, n)
      && (CallFault(calls, n).None? ==> Faultless(calls, |calls|) && b.keys == Accepted(calls))
  {
    var n := |calls| - 1;
    DuplicateSearch(calls, calls[n].column);
    if CallFault(calls, n).None? {
      AcceptedSnoc(calls);
    }
    hide Accepted, Faultless, Identifier, HasColumn;
  }

  /** Looking for a column among the accepted keys is looking for it among the earlier calls. */
  lemma DuplicateSearch(calls: seq<Call>, column: string)
    requires calls != [] && Faultless(calls[..|calls| - 1], |calls| - 1)
    ensures var n := |calls| - 1;
      HasColumn(Accepted(calls[..n]), column) <==> exists j :: 0 <= j < n && calls[j].column == column
  {
    hide Identifier, CallFault, Faultless;
    var n := |calls| - 1;
    var keys := Accepted(calls[..n]);
    assert |keys| == n && forall j :: 0 <= j < n ==> keys[j].column == calls[..n][j].column == calls[j].column;
    if j :| 0 <= j < n && calls[j].column == column {
      assert keys[j].column == column;
    }
  }

  lemma AcceptedSnoc(calls: seq<Call>)
    requires calls != [] && Faultless(calls, |calls| - 1) && Faultless(calls[..|calls| - 1], |calls| - 1)
    requires CallFault(calls, |calls| - 1).None?
    ensures var n := |calls| - 1;
      && Faultless(calls, |calls|)
      && calls[n].encoded.Some?
      && Accepted(calls) == Accepted(calls[..n]) + [Key(calls[n].column, calls[n].encoded.value)]
  {
    hide Identifier;
    var n := |calls| - 1;
    assert Faultless(calls, |calls|);
    assert forall j :: 0 <= j < n ==> calls[..n][j] == calls[j];
  }

  /** Completeness of the builder. `statement` succeeds exactly when the table and every column
      are identifiers, the columns are distinct, there is a key, and every value encodes to
      something other than NULL; it then carries the columns and values in call order. Otherwise
      it reports the first failure, and the empty selector only if there is no other. */
  lemma StatementMeaning(table: string, calls: seq<Call>, postgres: bool)
    ensures var r := Statement(Build(table, calls), postgres);
      && (r.Success? <==> Identifier(table) && calls != [] && Faultless(calls, |calls|))
      && (r.Success? ==>
            && r.value.sql == Text(table, Columns(Accepted(calls)), postgres)
            && r.value.values == Values(Accepted(calls)))
      && (!Identifier(table) ==> r == Failure(BadIdentifier))
      && (Identifier(table) && calls == [] ==> r == Failure(EmptySelector))
      && (Identifier(table) && !Faultless(calls, |calls|) ==>
            exists i :: FailsFirst(calls, i) && r == Failure(CallFault(calls, i).value))
  {
    if Identifier(table) {
      BuildMeaning(table, calls);
      if !Faultless(calls, |calls|) {
        var i: nat :| FailsFirst(calls, i) && Build(table, calls).error == CallFault(calls, i);
      }
    } else {
      BadTableSticks(table, calls);
    }
  }

  lemma {:induction false} BadTableSticks(table: string, calls: seq<Call>)
    requires !Identifier(table)
    ensures Build(table, calls).error == Some(BadIdentifier)
    decreases |calls|
  {
    if calls != [] { BadTableSticks(table, calls[..|calls| - 1]); }
  }

  // ---------------------------------------------------------------- reading the text back

  /** The words of a text, split at every space. */
  function Words(text: string): seq<string> {
    if text == "" then [""]
    else
      var rest := Words(text[1..]);
      if text[0] == ' ' then [""] + rest
      else [[text[0]] + rest[0]] + rest[1..]
  }

  /** The inside of a quoted word. */
  function Quoted(word: string): Option<string> {
    if |word| >= 2 && word[0] == '"' && word[|word| - 1] == '"' && '"' !in word[1..|word| - 1] then
      Some(word[1..|word| - 1])
    else None
  }

  function Number(digits: string): Option<nat> {
    if digits != "" && AllDigits(digits) then Some(Decimals.Value(digits)) else None
  }

  /** A placeholder `$n`. */
  function Parameter(word: string): Option<nat> {
    if word != "" && word[0] == '$' then Number(word[1..]) else None
  }

  datatype Selected = Selected(column: string, number: nat)

  /** `"column" = $n`, repeated with AND; the words after it are left over. */
  function ReadConditions(words: seq<string>): Option<(seq<Selected>, seq<string>)>
    decreases |words|
  {
    if |words| < 3 || words[1] != "=" || Quoted(words[0]).None? || Parameter(words[2]).None? then None
    else
      var first := Selected(Quoted(words[0]).value, Parameter(words[2]).value);
      if |words| == 3 || words[3] != "AND" then Some(([first], words[3..]))
      else
        var others := ReadConditions(words[4..]);
        if others.None? then None else Some(([first] + others.value.0, others.value.1))
  }

  /** What the statement asks for: at most `limit` rows of the table that meet the conditions,
      locked exclusively or not at all. */
  datatype Selector = Selector(table: string, conditions: seq<Selected>, limit: nat, exclusive: bool)

  /** A reader of its own for `SELECT 1 AS sqly_lock_match FROM "table" WHERE conditions LIMIT n`,
      with or without FOR UPDATE. */
  function Read(text: string): Option<Selector> {
    var words := Words(text);
    if |words| < 7 || words[..5] != ["SELECT", "1", "AS", "sqly_lock_match", "FROM"] || words[6] != "WHERE" then None
    else
      var table, conditions := Quoted(words[5]), ReadConditions(words[7..]);
      if table.None? || conditions.None? then None
      else
        var tail := conditions.value.1;
        if |tail| < 2 || tail[0] != "LIMIT" || Number(tail[1]).None? then None
        else if tail[2..] == [] then Some(Selector(table.value, conditions.value.0, Number(tail[1]).value, false))
        else if tail[2..] == ["FOR", "UPDATE"] then Some(Selector(table.value, conditions.value.0, Number(tail[1]).value, true))
        else None
  }

  lemma {:induction false} OneWord(word: string)
    requires ' ' !in word
    ensures Words(word) == [word]
  {
    if word != "" {
      OneWord(word[1..]);
      assert [word[0]] + word[1..] == word;
    }
  }

  lemma {:induction false} WordsJoin(a: string, b: string)
    ensures Words(a + " " + b) == Words(a) + Words(b)
  {
    if a == "" {
      assert (a + " " + b)[1..] == b;
    } else {
      assert (a + " " + b)[1..] == a[1..] + " " + b;
      WordsJoin(a[1..], b);
    }
  }

  lemma ThreeWords(a: string, b: string, c: string)
    requires ' ' !in a && ' ' !in b && ' ' !in c
    ensures Words(a + " " + b) == [a, b] && Words(a + " " + b + " " + c) == [a, b, c]
  {
    OneWord(a);
    OneWord(b);
    OneWord(c);
    WordsJoin(a, b);
    WordsJoin(a + " " + b, c);
  }

  /** A name that needs no escaping and contains no space. */
  predicate Simple(name: string) {
    '"' !in name && ' ' !in name
  }

  lemma QuotedOf(name: string)
    requires Simple(name)
    ensures Quoted("\"" + name + "\"") == Some(name) && ' ' !in "\"" + name + "\""
  {
    var word := "\"" + name + "\"";
    assert word[1..|word| - 1] == name;
  }

  lemma ParameterOf(number: nat)
    ensures Parameter("$" + Print(number)) == Some(number) && ' ' !in "$" + Print(number)
  {
    assert ("$" + Print(number))[1..] == Print(number);
    ValueOfPrint(number);
  }

  function ConditionWords(column: string, number: nat): seq<string> {
    ["\"" + column + "\"", "=", "$" + Print(number)]
  }

  lemma WordsOfCondition(column: string, number: nat)
    requires Simple(column)
    ensures Words(Condition(column, number)) == ConditionWords(column, number)
  {
    var name, parameter := "\"" + column + "\"", "$" + Print(number);
    QuotedOf(column);
    ParameterOf(number);
    assert Placeholder() == "\"" + " " + "=" + " " + "$";
    assert Condition(column, number) == name + " " + "=" + " " + parameter;
    ThreeWords(name, "=", parameter);
  }

  predicate AllSimple(columns: seq<string>) {
    forall i :: 0 <= i < |columns| ==> Simple(columns[i])
  }

  /** The words of the conditions from column `i` on, without a leading AND. */
  function ConditionsWords(columns: seq<string>, i: nat): seq<string>
    requires i < |columns|
    decreases |columns| - i
  {
    ConditionWords(columns[i], i + 1) + if i + 1 == |columns| then [] else ["AND"] + ConditionsWords(columns, i + 1)
  }

  lemma AndWords(first: string, rest: string)
    ensures Words(first + And() + rest) == Words(first) + ["AND"] + Words(rest)
  {
    assert And() == " " + "AND" + " ";
    assert first + And() + rest == first + " " + ("AND" + " " + rest);
    WordsJoin(first, "AND" + " " + rest);
    WordsJoin("AND", rest);
    OneWord("AND");
  }

  lemma {:induction false} WordsOfConditions(columns: seq<string>, i: nat)
    requires i < |columns| && AllSimple(columns)
    ensures Words(Condition(columns[i], i + 1) + Conditions(columns, i + 1)) == ConditionsWords(columns, i)
    decreases |columns| - i
  {
    hide Condition, ConditionWords, Words, Simple;
    var first := Condition(columns[i], i + 1);
    WordsOfCondition(columns[i], i + 1);
    if i + 1 == |columns| {
      assert first + Conditions(columns, i + 1) == first;
    } else {
      var rest := Condition(columns[i + 1], i + 2) + Conditions(columns, i + 2);
      assert Conditions(columns, i + 1) == And() + rest by { MoreConditions(columns, i + 1); }
      assert first + (And() + rest) == first + And() + rest;
      AndWords(first, rest);
      WordsOfConditions(columns, i + 1);
    }
  }

  lemma MoreConditions(columns: seq<string>, i: nat)
    requires 0 < i < |columns|
    ensures Conditions(columns, i) == And() + (Condition(columns[i], i + 1) + Conditions(columns, i + 1))
  {
    hide Condition, And;
    assert And() + Condition(columns[i], i + 1) + Conditions(columns, i + 1) ==
           And() + (Condition(columns[i], i + 1) + Conditions(columns, i + 1));
  }

  function TailWords(postgres: bool): seq<string> {
    ["LIMIT", "2"] + if postgres then ["FOR", "UPDATE"] else []
  }

  lemma WordsOfTail(body: string, postgres: bool)
    ensures Words(body + Tail(postgres)) == Words(body) + TailWords(postgres)
  {
    hide Words;
    ThreeWords("LIMIT", "2", "FOR");
    assert Limit() == " " + ("LIMIT" + " " + "2");
    var limited := body + " " + ("LIMIT" + " " + "2");
    WordsJoin(body, "LIMIT" + " " + "2");
    if postgres {
      ThreeWords("FOR", "UPDATE", "");
      assert ForUpdate() == " " + ("FOR" + " " + "UPDATE");
      assert body + Tail(postgres) == limited + " " + ("FOR" + " " + "UPDATE");
      WordsJoin(limited, "FOR" + " " + "UPDATE");
    } else {
      assert body + Tail(postgres) == limited;
    }
  }

  function Select(): string { "SELECT" + " " + "1" + " " + "AS" }
  function From(): string { "sqly_lock_match" + " " + "FROM" }

  /** How the fixed pieces fall into words. */
  lemma OpeningPieces()
    ensures Opening() == Select() + " " + From() + " " + "\""
  {
    assert Select() == "SELECT 1 AS" && From() == "sqly_lock_match FROM";
    assert "SELECT 1 AS" + " " + "sqly_lock_match FROM" + " " + "\"" == "SELECT 1 AS sqly_lock_match FROM \"";
    hide Select, From;
  }

  lemma SelectWords()
    ensures Words(Select()) == ["SELECT", "1", "AS"]
  {
    hide Words;
    ThreeWords("SELECT", "1", "AS");
  }

  lemma FromWords()
    ensures Words(From()) == ["sqly_lock_match", "FROM"]
  {
    hide Words;
    ThreeWords("sqly_lock_match", "FROM", "");
  }

  lemma WherePieces()
    ensures Where() == "\"" + " " + "WHERE" + " " && Words("WHERE") == ["WHERE"]
  {
    hide Words;
    OneWord("WHERE");
  }

  lemma OpeningAssociates(select: string, from: string, table: string, rest: string)
    ensures (select + " " + from + " " + "\"") + table + ("\"" + " " + "WHERE" + " ") + rest ==
            select + " " + (from + " " + (("\"" + table + "\"") + " " + ("WHERE" + " " + rest)))
  {
  }

  lemma WordsOfOpening(table: string, rest: string)
    requires Simple(table)
    ensures Words(Opening() + table + Where() + rest) ==
            ["SELECT", "1", "AS", "sqly_lock_match", "FROM", "\"" + table + "\"", "WHERE"] + Words(rest)
  {
    hide Words, Opening, Where, Select, From, Simple;
    var name := "\"" + table + "\"";
    var clause := "WHERE" + " " + rest;
    OpeningPieces();
    SelectWords();
    FromWords();
    WherePieces();
    QuotedOf(table);
    OneWord(name);
    OpeningAssociates(Select(), From(), table, rest);
    WordsJoin(Select(), From() + " " + (name + " " + clause));
    WordsJoin(From(), name + " " + clause);
    WordsJoin(name, clause);
    WordsJoin("WHERE", rest);
  }

  function Numbered(columns: seq<string>, i: nat): seq<Selected>
    requires i <= |columns|
  {
    seq(|columns| - i, k requires 0 <= k < |columns| - i => Selected(columns[i + k], i + k + 1))
  }

  lemma {:induction false} ReadConditionsOf(columns: seq<string>, i: nat, tail: seq<string>)
    requires i < |columns| && AllSimple(columns) && tail != [] && tail[0] != "AND"
    ensures ReadConditions(ConditionsWords(columns, i) + tail) == Some((Numbered(columns, i), tail))
    decreases |columns| - i
  {
    hide Quoted, Parameter, Simple;
    var words, more := ConditionWords(columns[i], i + 1), ConditionsWords(columns, i) + tail;
    QuotedOf(columns[i]);
    ParameterOf(i + 1);
    if i + 1 == |columns| {
      assert more == words + tail;
      assert more[3..] == tail;
      assert Numbered(columns, i) == [Selected(columns[i], i + 1)];
    } else {
      assert more == words + ["AND"] + (ConditionsWords(columns, i + 1) + tail);
      assert more[4..] == ConditionsWords(columns, i + 1) + tail;
      ReadConditionsOf(columns, i + 1, tail);
      assert Numbered(columns, i) == [Selected(columns[i], i + 1)] + Numbered(columns, i + 1);
    }
  }

  /** The words of the whole statement. */
  lemma WordsOfText(table: string, columns: seq<string>, postgres: bool)
    requires Simple(table) && columns != [] && AllSimple(columns)
    ensures Words(Text(table, columns, postgres)) ==
            ["SELECT", "1", "AS", "sqly_lock_match", "FROM", "\"" + table + "\"", "WHERE"]
            + (ConditionsWords(columns, 0) + TailWords(postgres))
  {
    hide Words, Condition, Opening, Where, Tail, ConditionsWords, TailWords, Simple;
    var body := Condition(columns[0], 1) + Conditions(columns, 1);
    assert Conditions(columns, 0) == body by { assert "" + Condition(columns[0], 1) + Conditions(columns, 1) == body; }
    assert Text(table, columns, postgres) == Opening() + table + Where() + (body + Tail(postgres));
    WordsOfOpening(table, body + Tail(postgres));
    WordsOfTail(body, postgres);
    WordsOfConditions(columns, 0);
  }

  /** The generated text asks for what it should: the table and columns it was given, with
      placeholders exactly `$1..$N` in column order, at most two rows, and an exclusive lock
      exactly on PostgreSQL. */
  lemma TextReadsBack(table: string, columns: seq<string>, postgres: bool)
    requires Simple(table) && columns != [] && AllSimple(columns)
    ensures Read(Text(table, columns, postgres)) == Some(Selector(table, Numbered(columns, 0), 2, postgres))
  {
    hide Words, ConditionsWords, Numbered, ReadConditions, Quoted, Text, Simple, AllSimple;
    var head := ["SELECT", "1", "AS", "sqly_lock_match", "FROM", "\"" + table + "\"", "WHERE"];
    var words := head + (ConditionsWords(columns, 0) + TailWords(postgres));
    WordsOfText(table, columns, postgres);
    QuotedOf(table);
    ReadConditionsOf(columns, 0, TailWords(postgres));
    LimitIsTwo();
    assert words[7..] == ConditionsWords(columns, 0) + TailWords(postgres);
    assert words[..5] == ["SELECT", "1", "AS", "sqly_lock_match", "FROM"];
    assert TailWords(postgres)[2..] == if postgres then ["FOR", "UPDATE"] else [];
  }

  lemma LimitIsTwo()
    ensures Number("2") == Some(2)
  {
    assert "2"[..0] == "";
  }

  lemma IdentifierIsSimple(name: string)
    requires Identifier(name)
    ensures Simple(name)
  {
  }

  /** Every statement the builder yields reads back to the table and columns it was given, at
      most two rows of them, locked exclusively exactly on PostgreSQL, and carries the encoded
      values in the same order. */
  lemma StatementReadsBack(table: string, calls: seq<Call>, postgres: bool)
    requires Statement(Build(table, calls), postgres).Success?
    ensures var generated := Statement(Build(table, calls), postgres).value;
      && |generated.values| == |calls|
      && Read(generated.sql) ==
           Some(Selector(table, seq(|calls|, i requires 0 <= i < |calls| => Selected(calls[i].column, i + 1)), 2, postgres))
      && forall i :: 0 <= i < |calls| ==> Some(generated.values[i]) == calls[i].encoded
  {
    hide Statement, Text, Read, Simple;
    StatementMeaning(table, calls, postgres);
    var columns := Columns(Accepted(calls));
    forall i | 0 <= i < |calls|
      ensures Simple(columns[i]) && Some(Values(Accepted(calls))[i]) == calls[i].encoded
    {
      assert CallFault(calls, i).None?;
      IdentifierIsSimple(columns[i]);
    }
    IdentifierIsSimple(table);
    TextReadsBack(table, columns, postgres);
    assert Numbered(columns, 0) == seq(|calls|, i requires 0 <= i < |calls| => Selected(calls[i].column, i + 1));
  }

  // ---------------------------------------------------------------- names

  /** Letters, digits and the underscore by their ASCII codes. */
  predicate AsciiLetter(code: int) {
    65 <= code <= 90 || 97 <= code <= 122
  }

  /** The names admitted: a letter or an underscore, then up to 62 letters, digits and
      underscores, all of them ASCII. */
  lemma IdentifierMeans(name: string)
    ensures Identifier(name) <==>
      && 1 <= |name| <= 63
      && (AsciiLetter(name[0] as int) || name[0] as int == 95)
      && forall i :: 1 <= i < |name| ==>
           AsciiLetter(name[i] as int) || 48 <= name[i] as int <= 57 || name[i] as int == 95
  {
    forall c: char ensures (IsAlpha(c) <==> AsciiLetter(c as int)) && (IsDigit(c) <==> 48 <= c as int <= 57) {
    }
    assert '_' as int == 95;
  }
}
