/** The one statement a migration file without a transaction may hold: a concurrent index build or drop, in the
    spelling the database itself prints. */
module ConcurrentIndex {
  import opened Domain
  import opened Normalizer
  import opened NormalForm

  datatype Name = Name(schema: string, relation: string)

  /** `definition` is the text an existing index's definition is compared with. */
  datatype Statement = CreateIndex(name: Name, table: string, definition: string) | DropIndex(name: Name)

  const DROP := "drop index concurrently if exists "

  function Concurrently(): string {
    " concurrently if not exists"
  }

  function Head(unique: bool): string {
    if unique then "create unique index" else "create index"
  }

  // ----- Identifiers -----

  predicate IdentStart(c: char) {
    'a' <= c <= 'z' || c == '_'
  }

  predicate IdentChar(c: char) {
    IdentStart(c) || '0' <= c <= '9'
  }

  predicate IsIdent(s: string) {
    s != "" && IdentStart(s[0]) && forall i :: 0 <= i < |s| ==> IdentChar(s[i])
  }

  function IdentLength(s: string): (n: nat)
    ensures n <= |s|
  {
    if s == "" || !IdentChar(s[0]) then 0 else 1 + IdentLength(s[1..])
  }

  datatype Piece = Piece(taken: string, rest: string)

  function TakeIdent(s: string): Option<Piece> {
    if s != "" && IdentStart(s[0]) then Some(Piece(s[..IdentLength(s)], s[IdentLength(s)..])) else None
  }

  predicate NoIdentNext(x: string) {
    x == "" || !IdentChar(x[0])
  }

  lemma {:induction false} IdentLengthIsLongest(s: string)
    ensures var n := IdentLength(s); (forall i :: 0 <= i < n ==> IdentChar(s[i])) && NoIdentNext(s[n..])
  {
    if s != "" && IdentChar(s[0]) {
      IdentLengthIsLongest(s[1..]);
      var n := IdentLength(s);
      assert s[1..][n - 1..] == s[n..];
      forall i | 0 <= i < n ensures IdentChar(s[i]) {
        if i > 0 { assert s[1..][i - 1] == s[i]; }
      }
    }
  }

  lemma {:induction false} IdentLengthOf(id: string, x: string)
    requires (forall i :: 0 <= i < |id| ==> IdentChar(id[i])) && NoIdentNext(x)
    ensures IdentLength(id + x) == |id|
  {
    if id == "" {
      assert id + x == x;
    } else {
      IdentLengthOf(id[1..], x);
      assert (id + x)[1..] == id[1..] + x;
    }
  }

  lemma TakeIdentExactly(s: string, id: string, x: string)
    ensures TakeIdent(s) == Some(Piece(id, x)) <==> IsIdent(id) && NoIdentNext(x) && s == id + x
  {
    if TakeIdent(s) == Some(Piece(id, x)) {
      IdentLengthIsLongest(s);
      assert s == s[..IdentLength(s)] + s[IdentLength(s)..];
    }
    if IsIdent(id) && NoIdentNext(x) && s == id + x {
      IdentLengthOf(id, x);
      assert s[0] == id[0] && s[..|id|] == id && s[|id|..] == x;
    }
  }

  // ----- Literals -----

  function After(s: string, p: string): Option<string> {
    if |p| <= |s| && s[..|p|] == p then Some(s[|p|..]) else None
  }

  lemma AfterExactly(s: string, p: string, x: string)
    ensures After(s, p) == Some(x) <==> s == p + x
  {
    if After(s, p) == Some(x) { assert s == s[..|p|] + s[|p|..]; }
    if s == p + x { assert s[..|p|] == p && s[|p|..] == x; }
  }

  predicate LineBreak(c: char) {
    c in {'\n', '\r', '\U{2028}', '\U{2029}'}
  }

  /** A parenthesised list on one line, not empty. */
  predicate IsColumns(s: string) {
    |s| >= 3 && s[0] == '(' && s[|s| - 1] == ')' && forall i :: 1 <= i < |s| - 1 ==> !LineBreak(s[i])
  }

  // ----- The two statements -----

  /** What follows the keywords of a create: name, table and columns. */
  datatype Target = Target(name: string, schema: string, table: string, using: string, columns: string)

  predicate TargetOk(t: Target) {
    IsIdent(t.name) && IsIdent(t.schema) && IsIdent(t.table) && IsIdent(t.using) && IsColumns(t.columns)
  }

  function Spell(t: Target): string {
    t.name + (" on " + (t.schema + ("." + (t.table + (" using " + (t.using + (" " + t.columns)))))))
  }

  function ParseTarget(s: string): Option<Target> {
    match TakeIdent(s) case None => None case Some(name) =>
    match After(name.rest, " on ") case None => None case Some(a) =>
    match TakeIdent(a) case None => None case Some(schema) =>
    match After(schema.rest, ".") case None => None case Some(b) =>
    match TakeIdent(b) case None => None case Some(table) =>
    match After(table.rest, " using ") case None => None case Some(c) =>
    match TakeIdent(c) case None => None case Some(using) =>
    match After(using.rest, " ") case None => None case Some(columns) =>
    if IsColumns(columns) then Some(Target(name.taken, schema.taken, table.taken, using.taken, columns)) else None
  }

  lemma ParseTargetFinds(t: Target)
    requires TargetOk(t)
    ensures ParseTarget(Spell(t)) == Some(t)
  {
    var u := " " + t.columns;
    var c := t.using + u;
    var b := t.table + (" using " + c);
    var a := t.schema + ("." + b);
    TakeIdentExactly(Spell(t), t.name, " on " + a);
    AfterExactly(" on " + a, " on ", a);
    TakeIdentExactly(a, t.schema, "." + b);
    AfterExactly("." + b, ".", b);
    TakeIdentExactly(b, t.table, " using " + c);
    AfterExactly(" using " + c, " using ", c);
    TakeIdentExactly(c, t.using, u);
    AfterExactly(u, " ", t.columns);
    hide TakeIdent, After, IsIdent, IsColumns;
  }

  lemma ParseTargetSpells(s: string)
    requires ParseTarget(s).Some?
    ensures TargetOk(ParseTarget(s).value) && s == Spell(ParseTarget(s).value)
  {
    var name := TakeIdent(s).value;
    var a := After(name.rest, " on ").value;
    var schema := TakeIdent(a).value;
    var b := After(schema.rest, ".").value;
    var table := TakeIdent(b).value;
    var c := After(table.rest, " using ").value;
    var using := TakeIdent(c).value;
    var columns := After(using.rest, " ").value;
    TakeIdentExactly(s, name.taken, name.rest);
    AfterExactly(name.rest, " on ", a);
    TakeIdentExactly(a, schema.taken, schema.rest);
    AfterExactly(schema.rest, ".", b);
    TakeIdentExactly(b, table.taken, table.rest);
    AfterExactly(table.rest, " using ", c);
    TakeIdentExactly(c, using.taken, using.rest);
    AfterExactly(using.rest, " ", columns);
    hide TakeIdent, After, IsIdent, IsColumns;
  }

  function ParseCreate(body: string, unique: bool): Option<Statement> {
    match After(body, Head(unique) + Concurrently() + " ") case None => None case Some(s) =>
    match ParseTarget(s) case None => None case Some(t) =>
    Some(CreateIndex(Name(t.schema, t.name), t.table, Head(unique) + (" " + s)))
  }

  function ParseDrop(body: string): Option<Statement> {
    match After(body, DROP) case None => None case Some(s) =>
    match TakeIdent(s) case None => None case Some(schema) =>
    match After(schema.rest, ".") case None => None case Some(a) =>
    if IsIdent(a) then Some(DropIndex(Name(schema.taken, a))) else None
  }

  /** The statement of a normalised file; None for anything else, and for any semicolon, even in a literal. */
  function ParseBody(body: string): Option<Statement> {
    if ';' in body then None
    else if ParseCreate(body, true).Some? then ParseCreate(body, true)
    else if ParseCreate(body, false).Some? then ParseCreate(body, false)
    else ParseDrop(body)
  }

  /** A create is accepted exactly in the one spelling, and its comparison text is the same statement without the words
      that make it concurrent. */
  lemma CreateExactly(body: string, unique: bool, st: Statement)
    ensures ParseCreate(body, unique) == Some(st) <==>
            exists t :: TargetOk(t) && body == Head(unique) + Concurrently() + " " + Spell(t)
                        && st == CreateIndex(Name(t.schema, t.name), t.table, Head(unique) + (" " + Spell(t)))
  {
    var p := Head(unique) + Concurrently() + " ";
    if ParseCreate(body, unique) == Some(st) {
      var s := After(body, p).value;
      AfterExactly(body, p, s);
      ParseTargetSpells(s);
    }
    if t :| && TargetOk(t) && body == p + Spell(t)
            && st == CreateIndex(Name(t.schema, t.name), t.table, Head(unique) + (" " + Spell(t)))
    {
      AfterExactly(body, p, Spell(t));
      ParseTargetFinds(t);
    }
  }

  lemma DropExactly(body: string, name: Name)
    ensures ParseDrop(body) == Some(DropIndex(name)) <==>
            IsIdent(name.schema) && IsIdent(name.relation) && body == DROP + (name.schema + ("." + name.relation))
  {
    hide IsIdent, IdentLength;
    if ParseDrop(body) == Some(DropIndex(name)) {
      var s := After(body, DROP).value;
      var schema := TakeIdent(s).value;
      AfterExactly(body, DROP, s);
      TakeIdentExactly(s, schema.taken, schema.rest);
      AfterExactly(schema.rest, ".", name.relation);
      hide TakeIdent, After;
    }
    if IsIdent(name.schema) && IsIdent(name.relation) && body == DROP + (name.schema + ("." + name.relation)) {
      var s := name.schema + ("." + name.relation);
      AfterExactly(body, DROP, s);
      TakeIdentExactly(s, name.schema, "." + name.relation);
      AfterExactly("." + name.relation, ".", name.relation);
      hide TakeIdent, After;
    }
  }

  // ----- Accepted texts are normal forms -----

  /** The normalised text of every accepted file is a fixpoint of the normaliser. */
  lemma AcceptedIsFixpoint(sql: string)
    requires Normalize(sql).Some? && ParseBody(Normalize(sql).value).Some?
    ensures Normalize(Normalize(sql).value) == Normalize(sql)
  {
    var body := Normalize(sql).value;
    NoSemicolonAtEnd(body);
    FixpointExactly(sql);
  }

  lemma NoSemicolonAtEnd(s: string)
    requires ';' !in s
    ensures !EndsInSemicolon(s)
  {
  }

  /** Letters and spaces, which no neighbour can change. */
  predicate Wordy(s: string) {
    forall i :: 0 <= i < |s| ==> 'a' <= s[i] <= 'z' || s[i] == ' '
  }

  lemma WordFirst(s: string, x: string)
    requires Wordy(s) && s != ""
    ensures First(s) == Lexeme(if s[0] == ' ' then Gap else Plain(s[0]), 1) && First(s + x) == First(s)
  {
    assert (s + x)[0] == s[0];
  }

  lemma {:induction false} WordsLex(s: string, x: string)
    requires Wordy(s)
    ensures Lex(s).Some? && Text(Lex(s).value) == s && Joins(s, x)
  {
    if s != "" {
      var t := if s[0] == ' ' then Gap else Plain(s[0]);
      WordFirst(s, x);
      WordsLex(s[1..], x);
      LexStep(s, t, 1, s[1..], Lex(s[1..]).value);
      hide First, Lex;
      TextConcat([t], Lex(s[1..]).value);
      TextOne(t);
      assert s == [s[0]] + s[1..];
    }
  }

  /** Words that begin and end with a letter begin and end with no gap. */
  lemma WordsEnds(s: string, ts: seq<Token>)
    requires s != "" && s[0] != ' ' && s[|s| - 1] != ' ' && Text(ts) == s
    ensures ts != [] && ts[0] != Gap && ts[|ts| - 1] != Gap
  {
    assert Text(ts) == TextOf(ts[0]) + Text(ts[1..]);
    if ts[|ts| - 1] == Gap { TextLast(ts); }
  }

  lemma NormalIfTidy(s: string, ts: seq<Token>)
    requires Lex(s) == Some(ts) && Text(ts) == s && IsSqueezed(ts) && IsStripped(ts) && !EndsInSemicolon(s)
    ensures Normalize(s) == Some(s)
  {
    LexIsStable(s);
    RenderIsText(ts);
    SqueezeAgain(ts);
    TrimIsStrip(ts);
  }

  /** Three stretches of a tidy text, the first two of them words: without the middle one it is tidy still. */
  lemma CutMiddle(a: string, m: string, b: string, ts: seq<Token>)
    requires Wordy(a) && Wordy(m) && a != "" && a[0] != ' ' && a[|a| - 1] != ' ' && b != ""
    requires Lex(a + (m + b)) == Some(ts) && Text(ts) == a + (m + b) && IsSqueezed(ts) && IsStripped(ts)
        && !EndsInSemicolon(a + b)
    ensures Normalize(a + b) == Some(a + b)
  {
    WordsLex(a, m + b);
    WordsLex(m, b);
    WordsLex(a, b);
    JoinedLex(a, m + b);
    JoinedLex(m, b);
    JoinedLex(a, b);
    var ta, tm, tb := Lex(a).value, Lex(m).value, Lex(b).value;
    assert ts == ta + (tm + tb);
    TextConcat(ta, tm + tb);
    TextConcat(tm, tb);
    WordsEnds(a, ta);
    SameTail(a, m + Text(tb), m + b);
    SameTail(m, Text(tb), b);
    TextConcat(ta, tb);
    CutIsTidy(ta, tm, tb);
    hide Lex, Text, Joins;
    NormalIfTidy(a + b, ta + tb);
  }

  lemma SameTail(a: string, x: string, y: string)
    requires a + x == a + y
    ensures x == y
  {
    assert (a + x)[|a|..] == x && (a + y)[|a|..] == y;
  }

  lemma CutIsTidy(a: seq<Token>, m: seq<Token>, b: seq<Token>)
    requires IsSqueezed(a + (m + b)) && IsStripped(a + (m + b))
    requires a != [] && a[0] != Gap && a[|a| - 1] != Gap && b != []
    ensures IsSqueezed(a + b) && IsStripped(a + b)
  {
    var ts, cut := a + (m + b), a + b;
    forall i | 0 <= i < |cut|
      ensures LowerToken(cut[i]) == cut[i] && (i > 0 ==> !(cut[i - 1] == Gap && cut[i] == Gap))
    {
      if i < |a| {
        assert cut[i] == ts[i];
        if i > 0 { assert cut[i - 1] == ts[i - 1]; }
      } else {
        assert cut[i] == ts[i + |m|];
        if i > |a| { assert cut[i - 1] == ts[i + |m| - 1]; }
      }
    }
    assert cut[|cut| - 1] == ts[|ts| - 1];
  }

  /** The text an accepted create is compared by is a normal form itself: an index the file built, printed in that
      spelling, compares equal. */
  lemma ComparisonTextIsNormal(sql: string, unique: bool)
    requires Normalize(sql).Some? && ';' !in Normalize(sql).value && ParseCreate(Normalize(sql).value, unique).Some?
    ensures var d := ParseCreate(Normalize(sql).value, unique).value.definition; Normalize(d) == Some(d)
  {
    hide Head, Concurrently, Lex, Text, After, ParseTarget, IsSqueezed, IsStripped, Normalize, Wordy;
    LexSome(sql);
    NormalizeIsTidy(sql);
    var body, ts := Normalize(sql).value, Tidy(Lex(sql).value);
    CreateParts(body, unique);
    HeadIsWordy(unique);
    var b := " " + After(body, Head(unique) + Concurrently() + " ").value;
    NoSemicolonAtEnd(Head(unique) + b);
    CutMiddle(Head(unique), Concurrently(), b, ts);
  }

  lemma HeadIsWordy(unique: bool)
    ensures Wordy(Head(unique)) && Wordy(Concurrently())
    ensures Head(unique) != "" && Head(unique)[0] != ' ' && Head(unique)[|Head(unique)| - 1] != ' '
  {
  }

  lemma CreateParts(body: string, unique: bool)
    requires ParseCreate(body, unique).Some? && ';' !in body
    ensures var b := " " + After(body, Head(unique) + Concurrently() + " ").value;
            && body == Head(unique) + (Concurrently() + b)
            && ParseCreate(body, unique).value.definition == Head(unique) + b
            && ';' !in Head(unique) + b
  {
    hide Head, Concurrently, ParseTarget;
    var s := After(body, Head(unique) + Concurrently() + " ").value;
    AfterExactly(body, Head(unique) + Concurrently() + " ", s);
    hide After;
    Reassociate(Head(unique) + Concurrently(), " ", s);
    Reassociate(Head(unique), Concurrently(), " " + s);
    InParts(Head(unique), Concurrently(), " " + s);
  }

  lemma InParts(a: string, m: string, b: string)
    requires ';' !in a + (m + b)
    ensures ';' !in a + b
  {
    forall c | c in a + b ensures c in a + (m + b) {
      assert c in a || c in b;
      assert c in b ==> c in m + b;
    }
  }

  lemma LexSome(sql: string)
    requires Normalize(sql).Some?
    ensures Lex(sql).Some?
  {
  }
}
