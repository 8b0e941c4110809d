/**
 The escaping of category names: chained whole-string replacements, one per special character, with
 `&` first. Stated for any escape table of that shape, then for the tables of the services.
 */
module HtmlEscape {

  datatype Escape = Escape(c: char, entity: string)

  /** `s.replace(c, entity)` */
  function ReplaceAll(s: string, e: Escape): string {
    if s == "" then ""
    else (if s[0] == e.c then e.entity else [s[0]]) + ReplaceAll(s[1..], e)
  }

  /** The replacements of a table applied one after the other to the whole string. */
  function Chain(s: string, table: seq<Escape>): string
    decreases |table|
  {
    if table == [] then s else Chain(ReplaceAll(s, table[0]), table[1..])
  }

  function EscapeChar(c: char, table: seq<Escape>): string {
    if table == [] then [c]
    else if table[0].c == c then table[0].entity
    else EscapeChar(c, table[1..])
  }

  /** Each character looked up once. */
  function OnePass(s: string, table: seq<Escape>): string {
    if s == "" then "" else EscapeChar(s[0], table) + OnePass(s[1..], table)
  }

  // ----- tables -----

  /** `&xyz;`: starts with the ampersand, ends at its only semicolon. */
  predicate IsEntity(e: string) {
    && |e| >= 2 && e[0] == '&' && e[|e| - 1] == ';'
    && forall i :: 0 < i < |e| - 1 ==> e[i] != ';'
  }

  predicate Untouched(s: string, table: seq<Escape>) {
    forall i, k :: 0 <= i < |s| && 0 <= k < |table| ==> s[i] != table[k].c
  }

  /** `&` comes first, characters and entities are distinct, and no later character occurs in an entity. */
  predicate GoodTable(table: seq<Escape>) {
    && table != [] && table[0].c == '&'
    && (forall k :: 0 <= k < |table| ==> IsEntity(table[k].entity))
    && (forall j, k :: 0 <= j < k < |table| ==> table[j].c != table[k].c && table[j].entity != table[k].entity)
    && (forall k :: 0 <= k < |table| ==> Untouched(table[k].entity, table[1..]))
  }

  // ----- chained replacements are one pass -----

  lemma {:induction false} ReplaceConcat(a: string, b: string, e: Escape)
    ensures ReplaceAll(a + b, e) == ReplaceAll(a, e) + ReplaceAll(b, e)
  {
    if a == "" {
      assert a + b == b;
    } else {
      assert (a + b)[1..] == a[1..] + b;
      ReplaceConcat(a[1..], b, e);
    }
  }

  lemma {:induction false} ChainConcat(a: string, b: string, table: seq<Escape>)
    ensures Chain(a + b, table) == Chain(a, table) + Chain(b, table)
    decreases |table|
  {
    if table != [] {
      ReplaceConcat(a, b, table[0]);
      ChainConcat(ReplaceAll(a, table[0]), ReplaceAll(b, table[0]), table[1..]);
    }
  }

  lemma {:induction false} ReplaceUntouched(s: string, e: Escape)
    requires forall i :: 0 <= i < |s| ==> s[i] != e.c
    ensures ReplaceAll(s, e) == s
  {
    if s != "" {
      ReplaceUntouched(s[1..], e);
    }
  }

  lemma {:induction false} ChainUntouched(s: string, table: seq<Escape>)
    requires Untouched(s, table)
    ensures Chain(s, table) == s
  {
    if table != [] {
      ReplaceUntouched(s, table[0]);
      ChainUntouched(s, table[1..]);
    }
  }

  /** A later replacement never touches an entity that an earlier one produced. */
  predicate Settled(table: seq<Escape>) {
    forall j, k :: 0 <= j < k < |table| ==> forall i :: 0 <= i < |table[j].entity| ==> table[j].entity[i] != table[k].c
  }

  lemma {:induction false} ChainOfChar(c: char, table: seq<Escape>)
    requires Settled(table)
    ensures Chain([c], table) == EscapeChar(c, table)
  {
    if table != [] {
      if table[0].c == c {
        assert ReplaceAll([c], table[0]) == table[0].entity;
        ChainUntouched(table[0].entity, table[1..]);
      } else {
        assert ReplaceAll([c], table[0]) == [c];
        ChainOfChar(c, table[1..]);
      }
    }
  }

  lemma {:induction false} ChainEmpty(table: seq<Escape>)
    ensures Chain("", table) == ""
  {
    if table != [] {
      ChainEmpty(table[1..]);
    }
  }

  lemma {:induction false} ChainIsOnePassIfSettled(s: string, table: seq<Escape>)
    requires Settled(table)
    ensures Chain(s, table) == OnePass(s, table)
  {
    if s == "" {
      ChainEmpty(table);
    } else {
      assert s == [s[0]] + s[1..];
      ChainConcat([s[0]], s[1..], table);
      ChainOfChar(s[0], table);
      ChainIsOnePassIfSettled(s[1..], table);
    }
  }

  lemma GoodTableIsSettled(table: seq<Escape>)
    requires GoodTable(table)
    ensures Settled(table)
  {
    forall j, k, i | 0 <= j < k < |table| && 0 <= i < |table[j].entity|
      ensures table[j].entity[i] != table[k].c
    {
      assert Untouched(table[j].entity, table[1..]);
      assert table[1..][k - 1] == table[k];
    }
  }

  /** With `&` first the chain escapes every character exactly once. */
  lemma ChainIsOnePass(s: string, table: seq<Escape>)
    requires GoodTable(table)
    ensures Chain(s, table) == OnePass(s, table)
  {
    GoodTableIsSettled(table);
    ChainIsOnePassIfSettled(s, table);
  }

  // ----- no raw special character -----

  lemma {:induction false} EscapeCharCases(c: char, table: seq<Escape>)
    ensures (EscapeChar(c, table) == [c] && forall k :: 0 <= k < |table| ==> table[k].c != c)
         || exists k :: 0 <= k < |table| && table[k].c == c && EscapeChar(c, table) == table[k].entity
  {
    if table != [] && table[0].c != c {
      EscapeCharCases(c, table[1..]);
      if k :| 0 <= k < |table| - 1 && table[1..][k].c == c && EscapeChar(c, table[1..]) == table[1..][k].entity {
        assert table[k + 1].c == c && EscapeChar(c, table) == table[k + 1].entity;
      } else {
        assert forall k :: 0 < k < |table| ==> table[k] == table[1..][k - 1];
      }
    }
  }

  /** The output holds none of the special characters other than the ampersands of its entities. */
  lemma {:induction false} NoRawCharacters(s: string, table: seq<Escape>)
    requires GoodTable(table)
    ensures Untouched(OnePass(s, table), table[1..])
  {
    if s != "" {
      NoRawCharacters(s[1..], table);
      EscapeCharCases(s[0], table);
      var head := EscapeChar(s[0], table);
      if k :| 0 <= k < |table| && table[k].c == s[0] && head == table[k].entity {
        assert Untouched(head, table[1..]);
      } else {
        assert forall k :: 0 <= k < |table| - 1 ==> table[1..][k] == table[k + 1];
      }
    }
  }

  // ----- unescaping recovers the input -----

  /** The table entry whose entity starts `s`, if any. */
  function EntryAt(s: string, table: seq<Escape>): (r: int)
    ensures -1 <= r < |table|
    ensures r >= 0 ==> table[r].entity <= s
    ensures r == -1 ==> forall k :: 0 <= k < |table| ==> !(table[k].entity <= s)
  {
    if table == [] then -1
    else if table[0].entity <= s then 0
    else
      var r := EntryAt(s, table[1..]);
      assert forall k :: 0 < k < |table| ==> table[k] == table[1..][k - 1];
      if r == -1 then -1 else r + 1
  }

  predicate NonEmptyEntities(table: seq<Escape>) {
    forall k :: 0 <= k < |table| ==> table[k].entity != ""
  }

  function Unescape(s: string, table: seq<Escape>): string
    requires NonEmptyEntities(table)
    decreases |s|
  {
    if s == "" then ""
    else
      var k := EntryAt(s, table);
      if k == -1 then [s[0]] + Unescape(s[1..], table)
      else [table[k].c] + Unescape(s[|table[k].entity|..], table)
  }

  /** An entity ends at its first semicolon, so no entity is the start of a different one. */
  lemma EntitiesArePrefixFree(a: string, b: string, s: string)
    requires IsEntity(a) && IsEntity(b) && a <= s && b <= s
    ensures a == b
  {
    assert forall i :: 0 <= i < |a| ==> s[i] == a[i];
    assert forall i :: 0 <= i < |b| ==> s[i] == b[i];
    assert s[|a| - 1] == ';' && s[|b| - 1] == ';';
    assert |a| == |b|;
  }

  lemma UnescapeEntity(k: nat, rest: string, table: seq<Escape>)
    requires GoodTable(table) && k < |table|
    ensures NonEmptyEntities(table)
    ensures Unescape(table[k].entity + rest, table) == [table[k].c] + Unescape(rest, table)
  {
    var s := table[k].entity + rest;
    var j := EntryAt(s, table);
    assert table[k].entity <= s;
    assert j >= 0;
    EntitiesArePrefixFree(table[j].entity, table[k].entity, s);
    assert j == k;
    assert s[|table[k].entity|..] == rest;
  }

  lemma UnescapePlain(c: char, rest: string, table: seq<Escape>)
    requires GoodTable(table) && c != '&'
    ensures NonEmptyEntities(table)
    ensures Unescape([c] + rest, table) == [c] + Unescape(rest, table)
  {
    var s := [c] + rest;
    var k := EntryAt(s, table);
    assert forall e: string :: |e| > 0 && e <= s ==> e[0] == s[0];
    assert forall j :: 0 <= j < |table| ==> table[j].entity[0] == '&';
    assert s[1..] == rest;
  }

  /** Unescaping recovers the input, for every string. */
  lemma {:induction false} UnescapeInverts(s: string, table: seq<Escape>)
    requires GoodTable(table)
    ensures NonEmptyEntities(table) && Unescape(OnePass(s, table), table) == s
  {
    if s != "" {
      UnescapeInverts(s[1..], table);
      EscapeCharCases(s[0], table);
      var rest := OnePass(s[1..], table);
      if k :| 0 <= k < |table| && table[k].c == s[0] && EscapeChar(s[0], table) == table[k].entity {
        UnescapeEntity(k, rest, table);
      } else {
        assert table[0].c != s[0];
        UnescapePlain(s[0], rest, table);
      }
      assert s == [s[0]] + s[1..];
    }
  }

  // ----- the services -----

  /** Rust, Phoenix and Bun. */
  const FOUR: seq<Escape> := [Escape('&', "&amp;"), Escape('<', "&lt;"), Escape('>', "&gt;"), Escape('"', "&quot;")]

  /** Node also escapes the apostrophe. */
  const FIVE: seq<Escape> :=
    [Escape('&', "&amp;"), Escape('<', "&lt;"), Escape('>', "&gt;"), Escape('"', "&quot;"), Escape('\'', "&#39;")]

  predicate Clean(e: string) {
    && IsEntity(e)
    && forall i :: 0 <= i < |e| ==> e[i] != '<' && e[i] != '>' && e[i] != '"' && e[i] != '\''
  }

  lemma EntitiesAreClean()
    ensures Clean("&amp;") && Clean("&lt;") && Clean("&gt;") && Clean("&quot;") && Clean("&#39;")
  {
  }

  lemma CleanIsUntouched(e: string, table: seq<Escape>)
    requires Clean(e) && forall k :: 0 <= k < |table| ==> table[k].c in ['<', '>', '"', '\'']
    ensures Untouched(e, table)
  {
  }

  lemma CleanTableIsGood(table: seq<Escape>)
    requires table != [] && table[0].c == '&'
    requires forall k :: 0 <= k < |table| ==> Clean(table[k].entity)
    requires forall k :: 0 < k < |table| ==> table[k].c in ['<', '>', '"', '\'']
    requires forall j, k :: 0 <= j < k < |table| ==> table[j].c != table[k].c && table[j].entity != table[k].entity
    ensures GoodTable(table)
  {
    forall k | 0 <= k < |table| ensures Untouched(table[k].entity, table[1..]) {
      CleanIsUntouched(table[k].entity, table[1..]);
    }
  }

  lemma EntitiesDiffer()
    ensures forall j, k :: 0 <= j < k < |FIVE| ==> FIVE[j].entity != FIVE[k].entity
  {
    assert "&amp;"[1] == 'a' && "&lt;"[1] == 'l' && "&gt;"[1] == 'g' && "&quot;"[1] == 'q' && "&#39;"[1] == '#';
  }

  lemma TablesAreGood()
    ensures GoodTable(FOUR) && GoodTable(FIVE)
  {
    EntitiesAreClean();
    EntitiesDiffer();
    assert forall k :: 0 <= k < |FOUR| ==> FOUR[k] == FIVE[k];
    CleanTableIsGood(FOUR);
    CleanTableIsGood(FIVE);
  }

  predicate NoMarkup(s: string) {
    '<' !in s && '>' !in s && '"' !in s
  }

  /** For every category name: escaped once per character, no raw markup left, and recoverable. */
  lemma DashboardNamesAreSafe(name: string)
    ensures Chain(name, FOUR) == OnePass(name, FOUR) && Chain(name, FIVE) == OnePass(name, FIVE)
    ensures NoMarkup(Chain(name, FOUR)) && NoMarkup(Chain(name, FIVE)) && '\'' !in Chain(name, FIVE)
    ensures NonEmptyEntities(FOUR) && Unescape(Chain(name, FOUR), FOUR) == name
    ensures NonEmptyEntities(FIVE) && Unescape(Chain(name, FIVE), FIVE) == name
  {
    TablesAreGood();
    ChainIsOnePass(name, FOUR);
    ChainIsOnePass(name, FIVE);
    NoRawCharacters(name, FOUR);
    NoRawCharacters(name, FIVE);
    UnescapeInverts(name, FOUR);
    UnescapeInverts(name, FIVE);
    assert FOUR[1..][0].c == '<' && FOUR[1..][1].c == '>' && FOUR[1..][2].c == '"';
    assert FIVE[1..][0].c == '<' && FIVE[1..][1].c == '>' && FIVE[1..][2].c == '"' && FIVE[1..][3].c == '\'';
  }

  /** What each single character becomes; a name is escaped character by character. */
  lemma CharactersEscaped(c: char, rest: string)
    ensures Chain([c] + rest, FOUR) == Chain([c], FOUR) + Chain(rest, FOUR)
    ensures Chain([c] + rest, FIVE) == Chain([c], FIVE) + Chain(rest, FIVE)
    ensures Chain([c], FOUR) ==
            if c == '&' then "&amp;" else if c == '<' then "&lt;" else if c == '>' then "&gt;"
            else if c == '"' then "&quot;" else [c]
    ensures Chain([c], FIVE) == if c == '\'' then "&#39;" else Chain([c], FOUR)
  {
    ChainConcat([c], rest, FOUR);
    ChainConcat([c], rest, FIVE);
    TablesAreGood();
    ChainIsOnePass([c], FOUR);
    ChainIsOnePass([c], FIVE);
    assert [c][1..] == "";
    assert OnePass([c], FOUR) == EscapeChar(c, FOUR) && OnePass([c], FIVE) == EscapeChar(c, FIVE);
    EscapeCharCases(c, FOUR);
    EscapeCharCases(c, FIVE);
    assert FOUR[0].c == '&' && FOUR[1].c == '<' && FOUR[2].c == '>' && FOUR[3].c == '"';
    assert FIVE[0].c == '&' && FIVE[1].c == '<' && FIVE[2].c == '>' && FIVE[3].c == '"' && FIVE[4].c == '\'';
  }

  /** Put `&` last and an entity's own ampersand is escaped again. */
  lemma AmpersandLastEscapesTwice()
    ensures Chain("<", [Escape('<', "&lt;"), Escape('&', "&amp;")]) == "&amp;lt;"
  {
    var lt, amp := Escape('<', "&lt;"), Escape('&', "&amp;");
    assert ReplaceAll("<", lt) == "&lt;";
    assert "&lt;"[1..] == "lt;" && "lt;"[1..] == "t;" && "t;"[1..] == ";";
    assert ReplaceAll(";", amp) == ";" && ReplaceAll("t;", amp) == "t;" && ReplaceAll("lt;", amp) == "lt;";
    assert ReplaceAll("&lt;", amp) == "&amp;lt;";
    assert [lt, amp][1..] == [amp];
  }
}
