/**
 The field scanner of the agent runtime (`server/.../agentruntime/DefaultAgentRuntime.java`,
 `STRING_FIELD` and `stringFields`): a regular expression that picks string fields out of a JSON
 text, and a two-pass unescape. The scanner is a matcher without backtracking; the lemmas show
 that it finds what the expression describes and which written maps it reads back.
 */
module StringFields {
  import opened Wrappers
  import opened Json

  // ----- The two-pass unescape -----

  function Unescape(s: string): string { Replace(Replace(s, "\\\"", "\""), "\\\\", "\\") }

  lemma {:induction false} UndoesQuotes(t: string)
    ensures Replace(Replace(t, "\"", "\\\""), "\\\"", "\"") == t
  {
    if t != "" {
      var rest := Replace(t[1..], "\"", "\\\"");
      UndoesQuotes(t[1..]);
      PrefixOfOne('\"', t);
      assert t == [t[0]] + t[1..];
      if t[0] == '\"' {
        var s := "\\\"" + rest;
        assert "\\\"" <= s && s[2..] == rest;
      } else {
        var s := [t[0]] + rest;
        assert s[1..] == rest;
        NoBareQuote(t[1..]);
        assert rest == "" || s[1] == rest[0];
      }
    }
  }

  /** After the quotes are escaped, no text begins with one. */
  lemma NoBareQuote(t: string)
    ensures var s := Replace(t, "\"", "\\\""); s == "" || s[0] != '\"'
  {
    if t != "" {
      PrefixOfOne('\"', t);
    }
  }

  lemma {:induction false} UndoesDoubling(t: string)
    ensures Replace(Replace(t, "\\", "\\\\"), "\\\\", "\\") == t
  {
    if t != "" {
      var rest := Replace(t[1..], "\\", "\\\\");
      UndoesDoubling(t[1..]);
      PrefixOfOne('\\', t);
      assert t == [t[0]] + t[1..];
      if t[0] == '\\' {
        var s := "\\\\" + rest;
        assert "\\\\" <= s && s[2..] == rest;
      } else {
        var s := [t[0]] + rest;
        assert s[1..] == rest && !("\\\\" <= s);
      }
    }
  }

  /** The passes undo each other for every string, whatever runs of backslashes come before its quotes. */
  lemma UnescapeUndoesEscape(s: string)
    ensures Unescape(Escape(s)) == s
  {
    UndoesQuotes(Replace(s, "\\", "\\\\"));
    UndoesDoubling(s);
  }

  // ----- The expression -----

  predicate IsSpace(c: char) { c in " \t\n\U{000B}\U{000C}\r" }

  /** What a dot of the expression does not match. */
  predicate IsLineEnd(c: char) { c in "\n\r\U{0085}\U{2028}\U{2029}" }

  predicate HasNo(s: string, c: char) { forall i :: 0 <= i < |s| ==> s[i] != c }

  predicate AllSpace(s: string) { forall i :: 0 <= i < |s| ==> IsSpace(s[i]) }

  /** Any number of escaped pairs and plain characters. */
  predicate IsBody(b: string) {
    b == "" || (if b[0] == '\\' then |b| > 1 && !IsLineEnd(b[1]) && IsBody(b[2..]) else b[0] != '\"' && IsBody(b[1..]))
  }

  /** `s` begins with a field: key in quotes, colon, body in quotes, with white space around the colon. */
  ghost predicate Begins(s: string, key: string, before: string, after: string, body: string, rest: string) {
    && key != "" && HasNo(key, '\"') && AllSpace(before) && AllSpace(after) && IsBody(body)
    && s == "\"" + (key + ("\"" + (before + (":" + (after + ("\"" + (body + ("\"" + rest))))))))
  }

  // ----- The matcher -----

  function ReadKey(s: string): (r: Option<(string, string)>)
    ensures r.Some? ==> |r.value.1| < |s|
  {
    if s == "" then None
    else if s[0] == '\"' then Some(("", s[1..]))
    else
      match ReadKey(s[1..])
      case None => None
      case Some((key, rest)) => Some(([s[0]] + key, rest))
  }

  function SkipSpace(s: string): (r: string)
    ensures |r| <= |s|
  {
    if s != "" && IsSpace(s[0]) then SkipSpace(s[1..]) else s
  }

  function ReadBody(s: string): (r: Option<(string, string)>)
    ensures r.Some? ==> |r.value.1| < |s|
    decreases |s|
  {
    if s == "" then None
    else if s[0] == '\"' then Some(("", s[1..]))
    else if s[0] == '\\' then
      if |s| < 2 || IsLineEnd(s[1]) then None
      else
        match ReadBody(s[2..])
        case None => None
        case Some((body, rest)) => Some((s[..2] + body, rest))
    else
      match ReadBody(s[1..])
      case None => None
      case Some((body, rest)) => Some(([s[0]] + body, rest))
  }

  datatype Match = Match(key: string, body: string, rest: string)

  /** What follows a key: white space, a colon, white space and the body. */
  function ReadRest(key: string, s: string): (r: Option<Match>)
    ensures r.Some? ==> |r.value.rest| < |s|
  {
    var colon := SkipSpace(s);
    if colon == "" || colon[0] != ':' then None
    else
      var quote := SkipSpace(colon[1..]);
      if quote == "" || quote[0] != '\"' then None
      else
        match ReadBody(quote[1..])
        case None => None
        case Some((body, rest)) => Some(Match(key, body, rest))
  }

  function MatchAt(s: string): (r: Option<Match>)
    ensures r.Some? ==> |r.value.rest| < |s|
  {
    if s == "" || s[0] != '\"' then None
    else
      match ReadKey(s[1..])
      case None => None
      case Some((key, rest)) => if key == "" then None else ReadRest(key, rest)
  }

  /** The leftmost match. */
  function Find(s: string): (r: Option<Match>)
    ensures r.Some? ==> |r.value.rest| < |s|
  {
    if s == "" then None
    else if MatchAt(s).Some? then MatchAt(s)
    else Find(s[1..])
  }

  function Fields(s: string): seq<(string, string)>
    decreases |s|
  {
    match Find(s)
    case None => []
    case Some(m) => [(m.key, Unescape(m.body))] + Fields(m.rest)
  }

  /** Later entries replace earlier ones with the same key. */
  function MapOf(fields: seq<(string, string)>): map<string, string> {
    if fields == [] then map[] else MapOf(fields[..|fields| - 1])[fields[|fields| - 1].0 := fields[|fields| - 1].1]
  }

  /** What the runtime makes of a model output; None where it throws. */
  function Parsed(raw: string): Option<map<string, string>> {
    if Fields(raw) == [] then None else Some(MapOf(Fields(raw)))
  }

  lemma {:induction false} BlankHasNoFields(s: string)
    requires AllSpace(s)
    ensures Find(s) == None
  {
    if s != "" {
      BlankHasNoFields(s[1..]);
    }
  }

  lemma OneMoreMatch(raw: string, done: seq<(string, string)>, text: string, m: Match)
    requires Fields(raw) == done + Fields(text) && Find(text) == Some(m)
    ensures Fields(raw) == (done + [(m.key, Unescape(m.body))]) + Fields(m.rest)
    ensures MapOf(done + [(m.key, Unescape(m.body))]) == MapOf(done)[m.key := Unescape(m.body)]
  {
    var field := (m.key, Unescape(m.body));
    assert done + ([field] + Fields(m.rest)) == (done + [field]) + Fields(m.rest);
    assert (done + [field])[..|done|] == done;
  }

  method ReadStringFields(raw: string) returns (fields: Option<map<string, string>>)
    ensures fields == Parsed(raw)
  {
    hide Find, Unescape;
    if forall i :: 0 <= i < |raw| ==> IsSpace(raw[i]) {
      BlankHasNoFields(raw);
      return None;
    }
    var found: map<string, string> := map[];
    var text := raw;
    ghost var done: seq<(string, string)> := [];
    while true
      invariant Fields(raw) == done + Fields(text) && found == MapOf(done)
      invariant found == map[] <==> done == []
      decreases |text|
    {
      var m := Find(text);
      if m == None {
        break;
      }
      hide MapOf;
      OneMoreMatch(raw, done, text, m.value);
      var value := Unescape(m.value.body);
      found := found[m.value.key := value];
      assert m.value.key in found;
      done := done + [(m.value.key, value)];
      text := m.value.rest;
    }
    assert Fields(raw) == done;
    if found == map[] {
      return None;
    }
    return Some(found);
  }

  // ----- The matcher finds what the expression describes -----

  lemma {:induction false} KeyEnds(key: string, rest: string)
    requires HasNo(key, '\"')
    ensures ReadKey(key + ("\"" + rest)) == Some((key, rest))
  {
    var s := key + ("\"" + rest);
    if key == "" {
      assert s == "\"" + rest && s[1..] == rest;
    } else {
      KeyEnds(key[1..], rest);
      assert s[1..] == key[1..] + ("\"" + rest) && [key[0]] + key[1..] == key;
    }
  }

  lemma {:induction false} KeyFound(s: string)
    requires ReadKey(s).Some?
    ensures var (key, rest) := ReadKey(s).value; HasNo(key, '\"') && s == key + ("\"" + rest)
  {
    if s[0] != '\"' {
      KeyFound(s[1..]);
      assert s == [s[0]] + s[1..];
    }
  }

  lemma {:induction false} SpaceSkipped(space: string, rest: string)
    requires AllSpace(space) && (rest == "" || !IsSpace(rest[0]))
    ensures SkipSpace(space + rest) == rest
  {
    if space == "" {
      assert space + rest == rest;
    } else {
      SpaceSkipped(space[1..], rest);
      assert (space + rest)[1..] == space[1..] + rest;
    }
  }

  lemma {:induction false} SpaceFound(s: string) returns (space: string)
    ensures AllSpace(space) && s == space + SkipSpace(s)
    ensures SkipSpace(s) == "" || !IsSpace(SkipSpace(s)[0])
  {
    space := "";
    if s != "" && IsSpace(s[0]) {
      var tail := SpaceFound(s[1..]);
      space := [s[0]] + tail;
      assert s == [s[0]] + s[1..];
    }
  }

  lemma {:induction false} BodyEnds(body: string, rest: string)
    requires IsBody(body)
    ensures ReadBody(body + ("\"" + rest)) == Some((body, rest))
    decreases |body|
  {
    var s := body + ("\"" + rest);
    if body == "" {
      assert s == "\"" + rest && s[1..] == rest;
    } else if body[0] == '\\' {
      BodyEnds(body[2..], rest);
      assert s[2..] == body[2..] + ("\"" + rest) && s[..2] == body[..2] && body[..2] + body[2..] == body;
    } else {
      BodyEnds(body[1..], rest);
      assert s[1..] == body[1..] + ("\"" + rest) && [body[0]] + body[1..] == body;
    }
  }

  lemma {:induction false} BodyFound(s: string)
    requires ReadBody(s).Some?
    ensures var (body, rest) := ReadBody(s).value; IsBody(body) && s == body + ("\"" + rest)
    decreases |s|
  {
    if s[0] == '\\' {
      BodyFound(s[2..]);
      assert s == s[..2] + s[2..];
    } else if s[0] != '\"' {
      BodyFound(s[1..]);
      assert s == [s[0]] + s[1..];
    }
  }

  /** A field at the front is matched, up to exactly its closing quote. */
  lemma FieldIsMatched(s: string, key: string, before: string, after: string, body: string, rest: string)
    requires Begins(s, key, before, after, body, rest)
    ensures MatchAt(s) == Some(Match(key, body, rest))
  {
    hide IsSpace;
    var quoted := "\"" + (body + ("\"" + rest));
    var colon := ":" + (after + quoted);
    assert s[1..] == key + ("\"" + (before + colon));
    KeyEnds(key, before + colon);
    MarksAreNoSpace();
    SpaceSkipped(before, colon);
    assert colon[1..] == after + quoted;
    SpaceSkipped(after, quoted);
    assert quoted[1..] == body + ("\"" + rest);
    BodyEnds(body, rest);
  }

  lemma MarksAreNoSpace()
    ensures !IsSpace(':') && !IsSpace('\"')
  {
  }

  /** A match is a field of the expression; there is no other way to read it. */
  lemma MatchIsField(s: string) returns (before: string, after: string)
    requires MatchAt(s).Some?
    ensures Begins(s, MatchAt(s).value.key, before, after, MatchAt(s).value.body, MatchAt(s).value.rest)
  {
    hide IsSpace;
    KeyFound(s[1..]);
    var (key, tail) := ReadKey(s[1..]).value;
    before := SpaceFound(tail);
    var colon := SkipSpace(tail);
    after := SpaceFound(colon[1..]);
    var quote := SkipSpace(colon[1..]);
    BodyFound(quote[1..]);
    assert s == "\"" + s[1..] && colon == ":" + colon[1..] && quote == "\"" + quote[1..];
  }

  /** The matcher and the expression agree, in both directions. */
  lemma MatchAtIffField(s: string, key: string, body: string, rest: string)
    ensures MatchAt(s) == Some(Match(key, body, rest)) <==>
            exists before, after :: Begins(s, key, before, after, body, rest)
  {
    hide MatchAt, Begins;
    if MatchAt(s) == Some(Match(key, body, rest)) {
      var before, after := MatchIsField(s);
    }
    forall before, after | Begins(s, key, before, after, body, rest)
      ensures MatchAt(s) == Some(Match(key, body, rest))
    {
      FieldIsMatched(s, key, before, after, body, rest);
    }
  }

  // ----- Which written maps are read back -----

  /** The entries of a flat map of strings as values. */
  function Flat(fields: seq<(string, string)>): seq<(string, Value)> {
    if fields == [] then [] else [(fields[0].0, Str(fields[0].1))] + Flat(fields[1..])
  }

  predicate QuoteFree(key: string) { key != "" && HasNo(key, '\"') }

  predicate Plain(key: string) { QuoteFree(key) && HasNo(key, '\\') }

  predicate AllKeys(fields: seq<(string, string)>, p: string -> bool) { forall f :: f in fields ==> p(f.0) }

  /** What the scanner makes of an entry: it does not unescape keys. */
  function Scanned(fields: seq<(string, string)>): seq<(string, string)> {
    if fields == [] then [] else [(Escape(fields[0].0), fields[0].1)] + Scanned(fields[1..])
  }

  lemma {:induction false} EscapedKey(key: string)
    requires HasNo(key, '\"')
    ensures HasNo(Escape(key), '\"') && |Escape(key)| >= |key|
    ensures HasNo(key, '\\') ==> Escape(key) == key
    ensures !HasNo(key, '\\') ==> |Escape(key)| > |key| && !HasNo(Escape(key), '\\')
  {
    TwoPassesAreOne(key);
    if key != "" {
      var tail := key[1..];
      EscapedKey(tail);
      TwoPassesAreOne(tail);
      assert key == [key[0]] + tail;
      var e := EscapeChars(key);
      if key[0] == '\\' {
        assert e == "\\\\" + EscapeChars(tail) && e[0] == '\\';
      } else {
        assert e == [key[0]] + EscapeChars(tail);
        if !HasNo(tail, '\\') {
          var i :| 0 <= i < |EscapeChars(tail)| && EscapeChars(tail)[i] == '\\';
          assert e[i + 1] == '\\';
        }
      }
    }
  }

  lemma {:induction false} EscapedIsBody(s: string)
    ensures IsBody(Escape(s))
  {
    TwoPassesAreOne(s);
    if s != "" {
      EscapedIsBody(s[1..]);
      TwoPassesAreOne(s[1..]);
      var e, tail := EscapeChars(s), EscapeChars(s[1..]);
      if s[0] == '\\' {
        assert e == "\\\\" + tail && e[2..] == tail;
      } else if s[0] == '\"' {
        assert e == "\\\"" + tail && e[2..] == tail;
      } else {
        assert e == [s[0]] + tail && e[1..] == tail;
      }
    }
  }

  lemma FieldText(key: string, value: string, rest: string)
    requires QuoteFree(key)
    ensures Find(PrintField((key, Str(value))) + rest) == Some(Match(Escape(key), Escape(value), rest))
  {
    EscapedKey(key);
    EscapedIsBody(value);
    var k, b := Escape(key), Escape(value);
    var s := PrintField((key, Str(value))) + rest;
    hide Escape, Find, Begins;
    var tail := ":" + (Quote(value) + rest);
    Regroup(Quote(key), ":", Quote(value), rest);
    Regroup("\"", k, "\"", tail);
    Regroup("\"", b, "\"", rest);
    assert Print(Str(value)) == Quote(value);
    assert PrintField((key, Str(value))) == Quote(key) + (":" + Quote(value));
    assert s == Quote(key) + tail;
    assert Quote(key) == "\"" + (k + "\"") && Quote(value) == "\"" + (b + "\"");
    assert "" + tail == tail && "" + ("\"" + (b + ("\"" + rest))) == "\"" + (b + ("\"" + rest));
    assert s == "\"" + (k + ("\"" + ("" + (":" + ("" + ("\"" + (b + ("\"" + rest))))))));
    FieldIsMatched(s, k, "", "", b, rest);
  }

  lemma Skips(c: char, s: string)
    requires c != '\"'
    ensures Find([c] + s) == Find(s) && Fields([c] + s) == Fields(s)
  {
    assert ([c] + s)[1..] == s;
  }

  /** The scanner reads the entries of a written object one after the other. */
  lemma {:induction false} ScansFields(fields: seq<(string, string)>)
    requires AllKeys(fields, QuoteFree)
    ensures Fields(PrintFields(Flat(fields)) + "}") == Scanned(fields)
  {
    if fields == [] {
      assert PrintFields(Flat(fields)) + "}" == "}" && Find("}") == None;
    } else {
      assert fields[0] in fields && forall f :: f in fields[1..] ==> f in fields;
      ScansFields(fields[1..]);
      var (key, value) := fields[0];
      var more := PrintFields(Flat(fields[1..])) + "}";
      var rest := if |fields| == 1 then "}" else "," + more;
      assert PrintFields(Flat(fields)) + "}" == PrintField((key, Str(value))) + rest by {
        FlatParts(fields);
      }
      FieldText(key, value, rest);
      UnescapeUndoesEscape(value);
      if |fields| == 1 {
        assert fields[1..] == [] && more == "}";
      } else {
        Skips(',', more);
        assert rest == [','] + more;
      }
    }
  }

  lemma FlatParts(fields: seq<(string, string)>)
    requires fields != []
    ensures Flat(fields)[0] == (fields[0].0, Str(fields[0].1)) && Flat(fields)[1..] == Flat(fields[1..])
    ensures |Flat(fields)| == 1 <==> |fields| == 1
    ensures |fields| == 1 ==> PrintFields(Flat(fields)) == PrintField(Flat(fields)[0])
    ensures |fields| > 1 ==>
              PrintFields(Flat(fields)) == PrintField(Flat(fields)[0]) + ("," + PrintFields(Flat(fields[1..])))
  {
    if |fields| > 1 {
      assert Flat(fields[1..]) != [];
    } else {
      assert fields[1..] == [];
    }
  }

  lemma ScansObject(fields: seq<(string, string)>)
    requires AllKeys(fields, QuoteFree)
    ensures Fields(Print(Obj(Flat(fields)))) == Scanned(fields)
  {
    ScansFields(fields);
    Skips('{', PrintFields(Flat(fields)) + "}");
    assert Print(Obj(Flat(fields))) == ['{'] + (PrintFields(Flat(fields)) + "}");
  }

  lemma {:induction false} ScannedAt(fields: seq<(string, string)>)
    ensures |Scanned(fields)| == |fields|
    ensures forall i :: 0 <= i < |fields| ==> Scanned(fields)[i] == (Escape(fields[i].0), fields[i].1)
  {
    if fields != [] {
      ScannedAt(fields[1..]);
    }
  }

  lemma {:induction false} MapKeys(fields: seq<(string, string)>, key: string)
    ensures key in MapOf(fields) <==> exists f :: f in fields && f.0 == key
  {
    if fields != [] {
      var front, last := fields[..|fields| - 1], fields[|fields| - 1];
      MapKeys(front, key);
      assert fields == front + [last];
    }
  }

  /** No match has an empty key or one with a quote. */
  lemma {:induction false} FoundKeys(s: string)
    ensures AllKeys(Fields(s), QuoteFree)
    decreases |s|
  {
    var m := Find(s);
    if m.Some? {
      FoundKey(s);
      FoundKeys(m.value.rest);
    }
  }

  lemma {:induction false} FoundKey(s: string)
    requires Find(s).Some?
    ensures QuoteFree(Find(s).value.key)
  {
    if MatchAt(s).Some? {
      var before, after := MatchIsField(s);
    } else {
      FoundKey(s[1..]);
    }
  }

  /** The longest of the keys with a backslash. */
  lemma {:induction false} LongestEscaped(fields: seq<(string, string)>) returns (f: (string, string))
    requires exists g :: g in fields && !HasNo(g.0, '\\')
    ensures f in fields && !HasNo(f.0, '\\')
    ensures forall g :: g in fields && !HasNo(g.0, '\\') ==> |g.0| <= |f.0|
  {
    var rest := fields[1..];
    assert fields == [fields[0]] + rest;
    if exists g :: g in rest && !HasNo(g.0, '\\') {
      f := LongestEscaped(rest);
      if !HasNo(fields[0].0, '\\') && |fields[0].0| > |f.0| {
        f := fields[0];
      }
    } else {
      f := fields[0];
    }
  }

  lemma PlainIsScanned(fields: seq<(string, string)>)
    requires AllKeys(fields, Plain)
    ensures Scanned(fields) == fields
  {
    ScannedAt(fields);
    forall i | 0 <= i < |fields| ensures Scanned(fields)[i] == fields[i] {
      assert fields[i] in fields;
      EscapedKey(fields[i].0);
    }
  }

  /** A key with a backslash comes back longer, so the longest of them is lost. */
  lemma EscapedKeyIsLost(fields: seq<(string, string)>, f: (string, string))
    requires AllKeys(fields, QuoteFree) && f in fields && !HasNo(f.0, '\\')
    ensures MapOf(Scanned(fields)) != MapOf(fields)
  {
    var longest := LongestEscaped(fields);
    EscapedKey(longest.0);
    ScannedAt(fields);
    var i :| 0 <= i < |fields| && fields[i] == longest;
    assert Scanned(fields)[i] in Scanned(fields);
    MapKeys(Scanned(fields), Escape(longest.0));
    MapKeys(fields, Escape(longest.0));
  }

  /**
   The runtime reads back what the server wrote exactly when the map is not empty and every key
   is non-empty and free of quotes and backslashes. The values may be any strings.
   */
  lemma FlatMapReadsBackIff(fields: seq<(string, string)>)
    ensures Parsed(Print(Obj(Flat(fields)))) == Some(MapOf(fields)) <==> fields != [] && AllKeys(fields, Plain)
  {
    var text := Print(Obj(Flat(fields)));
    hide Print, Find, Escape, HasNo;
    if AllKeys(fields, QuoteFree) {
      ScansObject(fields);
      ScannedAt(fields);
      if AllKeys(fields, Plain) {
        PlainIsScanned(fields);
      } else if fields != [] {
        var f :| f in fields && !Plain(f.0);
        EscapedKeyIsLost(fields, f);
      }
    } else {
      var f :| f in fields && !QuoteFree(f.0);
      FoundKeys(text);
      MapKeys(fields, f.0);
      MapKeys(Fields(text), f.0);
      assert !Plain(f.0);
    }
  }
}
