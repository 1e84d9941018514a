/**
 The server's JSON writer (`server/.../api/grpc/EventJson.java`) and a recursive-descent reader
 that reads everything it writes back unchanged (grammar of RFC 8259, without white space and with
 only the two escapes the writer uses).
 */
module Json {
  import opened Wrappers
  import D = UnifiedDiff

  /** Values as the writer takes them; an object is its entries in iteration order. */
  datatype Value =
    | Null
    | Bool(b: bool)
    | Int(n: int)
    | Str(s: string)
    | Arr(items: seq<Value>)
    | Obj(fields: seq<(string, Value)>)

  // ----- Replacing text -----

  /** Replaces the occurrences of `target` from left to right. */
  function Replace(s: string, target: string, replacement: string): string
    requires target != ""
    decreases |s|
  {
    if s == "" then ""
    else if target <= s then replacement + Replace(s[|target|..], target, replacement)
    else [s[0]] + Replace(s[1..], target, replacement)
  }

  /** Doubles the backslashes, then puts one before every quote. */
  function Escape(s: string): string { Replace(Replace(s, "\\", "\\\\"), "\"", "\\\"") }

  function Quote(s: string): string { "\"" + (Escape(s) + "\"") }

  /** The same in one pass. */
  function EscapeChars(s: string): string {
    if s == "" then ""
    else (if s[0] == '\\' then "\\\\" else if s[0] == '\"' then "\\\"" else [s[0]]) + EscapeChars(s[1..])
  }

  lemma PrefixOfOne(c: char, s: string)
    requires s != ""
    ensures [c] <= s <==> s[0] == c
  {
  }

  lemma {:induction false} TwoPassesAreOne(s: string)
    ensures Escape(s) == EscapeChars(s)
  {
    if s != "" {
      TwoPassesAreOne(s[1..]);
      var rest := Replace(s[1..], "\\", "\\\\");
      PrefixOfOne('\\', s);
      if s[0] == '\\' {
        assert Replace(s, "\\", "\\\\") == "\\\\" + rest;
        ReplaceStep("\\\\" + rest, 2, "\"", "\\\"");
      } else {
        assert Replace(s, "\\", "\\\\") == [s[0]] + rest;
        PrefixOfOne('\"', [s[0]] + rest);
        assert ([s[0]] + rest)[1..] == rest;
      }
    }
  }

  /** A replacement of quotes passes over `n` characters that are none. */
  lemma {:induction false} ReplaceStep(s: string, n: nat, target: string, replacement: string)
    requires n <= |s| && target == "\"" && forall i :: 0 <= i < n ==> s[i] != '\"'
    ensures Replace(s, target, replacement) == s[..n] + Replace(s[n..], target, replacement)
  {
    if n == 0 {
      assert s[..0] == "" && s[0..] == s;
    } else {
      PrefixOfOne('\"', s);
      assert target == ['\"'] && !(target <= s);
      ReplaceStep(s[1..], n - 1, target, replacement);
      assert s[1..][n - 1..] == s[n..] && [s[0]] + s[1..][..n - 1] == s[..n];
    }
  }

  // ----- The writer -----

  function IntText(n: int): string { if n < 0 then "-" + D.Decimal(-n) else D.Decimal(n) }

  function Print(v: Value): string
    decreases v
  {
    match v
    case Null => "null"
    case Bool(b) => if b then "true" else "false"
    case Int(n) => IntText(n)
    case Str(s) => Quote(s)
    case Arr(items) => "[" + (PrintItems(items) + "]")
    case Obj(fields) => "{" + (PrintFields(fields) + "}")
  }

  function PrintItems(items: seq<Value>): string
    decreases items
  {
    if items == [] then ""
    else if |items| == 1 then Print(items[0])
    else Print(items[0]) + ("," + PrintItems(items[1..]))
  }

  function PrintField(f: (string, Value)): string
    decreases f
  {
    Quote(f.0) + (":" + Print(f.1))
  }

  function PrintFields(fields: seq<(string, Value)>): string
    decreases fields
  {
    if fields == [] then ""
    else if |fields| == 1 then PrintField(fields[0])
    else PrintField(fields[0]) + ("," + PrintFields(fields[1..]))
  }

  class StringBuilder {
    var text: string

    constructor ()
      ensures text == ""
    {
      text := "";
    }

    method Append(s: string)
      modifies this
      ensures text == old(text) + s
    {
      text := text + s;
    }
  }

  lemma {:induction false} OneMoreItem(items: seq<Value>, item: Value)
    ensures PrintItems(items + [item]) == PrintItems(items) + (if items == [] then "" else ",") + Print(item)
  {
    if |items| > 0 {
      OneMoreItem(items[1..], item);
      assert (items + [item])[1..] == items[1..] + [item];
      if |items| == 1 {
        assert items[1..] == [];
      }
    }
  }

  lemma {:induction false} OneMoreField(fields: seq<(string, Value)>, f: (string, Value))
    ensures PrintFields(fields + [f]) == PrintFields(fields) + (if fields == [] then "" else ",") + PrintField(f)
  {
    if |fields| > 0 {
      OneMoreField(fields[1..], f);
      assert (fields + [f])[1..] == fields[1..] + [f];
      if |fields| == 1 {
        assert fields[1..] == [];
      }
    }
  }

  method WriteValue(out: StringBuilder, v: Value)
    modifies out
    ensures out.text == old(out.text) + Print(v)
    decreases v
  {
    hide IntText, Quote, PrintItems, PrintFields;
    match v
    case Null => out.Append("null");
    case Bool(b) => out.Append(if b then "true" else "false");
    case Int(n) => out.Append(IntText(n));
    case Str(s) => out.Append(Quote(s));
    case Arr(items) =>
      out.Append("[");
      WriteItems(out, items);
      out.Append("]");
    case Obj(fields) =>
      out.Append("{");
      WriteFields(out, fields);
      out.Append("}");
  }

  method WriteItems(out: StringBuilder, items: seq<Value>)
    modifies out
    ensures out.text == old(out.text) + PrintItems(items)
    decreases items
  {
    var first := true;
    for k := 0 to |items|
      invariant first <==> k == 0
      invariant out.text == old(out.text) + PrintItems(items[..k])
    {
      if !first {
        out.Append(",");
      }
      first := false;
      WriteValue(out, items[k]);
      OneMoreItem(items[..k], items[k]);
      assert items[..k] + [items[k]] == items[..k + 1];
    }
    assert items[..|items|] == items;
  }

  method WriteField(out: StringBuilder, f: (string, Value))
    modifies out
    ensures out.text == old(out.text) + PrintField(f)
    decreases f
  {
    out.Append(Quote(f.0));
    out.Append(":");
    WriteValue(out, f.1);
  }

  method WriteFields(out: StringBuilder, fields: seq<(string, Value)>)
    modifies out
    ensures out.text == old(out.text) + PrintFields(fields)
    decreases fields
  {
    var first := true;
    for k := 0 to |fields|
      invariant first <==> k == 0
      invariant out.text == old(out.text) + PrintFields(fields[..k])
    {
      if !first {
        out.Append(",");
      }
      first := false;
      WriteField(out, fields[k]);
      OneMoreField(fields[..k], fields[k]);
      assert fields[..k] + [fields[k]] == fields[..k + 1];
    }
    assert fields[..|fields|] == fields;
  }

  /** The text of an object; of no object, the empty one. */
  method Write(data: Option<seq<(string, Value)>>) returns (text: string)
    ensures text == Print(Obj(if data == None then [] else data.value))
  {
    if data == None {
      return "{}";
    }
    var out := new StringBuilder();
    WriteValue(out, Obj(data.value));
    return out.text;
  }

  // ----- The reader -----

  /** A string's characters up to its closing quote, and what follows it. */
  function ReadString(s: string): (r: Option<(string, string)>)
    ensures r.Some? ==> |r.value.1| < |s|
    decreases |s|
  {
    if s == "" then None
    else if s[0] == '\"' then Some(("", s[1..]))
    else
      var escaped := s[0] == '\\';
      if escaped && (|s| < 2 || (s[1] != '\\' && s[1] != '\"')) then None
      else
        match ReadString(if escaped then s[2..] else s[1..])
        case None => None
        case Some((text, rest)) => Some(([if escaped then s[1] else s[0]] + text, rest))
  }

  function ReadInt(s: string): (r: Option<(int, string)>)
    ensures r.Some? ==> |r.value.1| < |s|
  {
    if s != "" && s[0] == '-' && |s| > 1 && D.IsDigit(s[1]) then
      var (n, rest) := D.ReadNat(0, s[1..]);
      if |rest| < |s| then Some((0 - n as int, rest)) else None
    else if s != "" && D.IsDigit(s[0]) then
      var (n, rest) := D.ReadNat(s[0] as nat - '0' as nat, s[1..]);
      if |rest| < |s| then Some((n, rest)) else None
    else None
  }

  function ReadValue(s: string): (r: Option<(Value, string)>)
    ensures r.Some? ==> |r.value.1| < |s|
    decreases |s|, 0
  {
    if s == "" then None
    else
      match s[0]
      case 'n' => if "null" <= s then Some((Null, s[4..])) else None
      case 't' => if "true" <= s then Some((Bool(true), s[4..])) else None
      case 'f' => if "false" <= s then Some((Bool(false), s[5..])) else None
      case '\"' =>
        (match ReadString(s[1..])
         case None => None
         case Some((text, rest)) => Some((Str(text), rest)))
      case '[' =>
        if |s| > 1 && s[1] == ']' then Some((Arr([]), s[2..]))
        else
          (match ReadItems(s[1..])
           case None => None
           case Some((items, rest)) => Some((Arr(items), rest)))
      case '{' =>
        if |s| > 1 && s[1] == '}' then Some((Obj([]), s[2..]))
        else
          (match ReadFields(s[1..])
           case None => None
           case Some((fields, rest)) => Some((Obj(fields), rest)))
      case _ =>
        (match ReadInt(s)
         case None => None
         case Some((n, rest)) => Some((Int(n), rest)))
  }

  /** One or more items up to the closing bracket. */
  function ReadItems(s: string): (r: Option<(seq<Value>, string)>)
    ensures r.Some? ==> |r.value.1| < |s|
    decreases |s|, 1
  {
    match ReadValue(s)
    case None => None
    case Some((item, rest)) =>
      if rest == "" then None
      else if rest[0] == ']' then Some(([item], rest[1..]))
      else if rest[0] != ',' then None
      else
        match ReadItems(rest[1..])
        case None => None
        case Some((items, after)) => Some(([item] + items, after))
  }

  function ReadField(s: string): (r: Option<((string, Value), string)>)
    ensures r.Some? ==> |r.value.1| < |s|
    decreases |s|, 1
  {
    if s == "" || s[0] != '\"' then None
    else
      match ReadString(s[1..])
      case None => None
      case Some((key, rest)) =>
        if rest == "" || rest[0] != ':' then None
        else
          match ReadValue(rest[1..])
          case None => None
          case Some((v, after)) => Some(((key, v), after))
  }

  /** One or more fields up to the closing brace. */
  function ReadFields(s: string): (r: Option<(seq<(string, Value)>, string)>)
    ensures r.Some? ==> |r.value.1| < |s|
    decreases |s|, 2
  {
    match ReadField(s)
    case None => None
    case Some((field, rest)) =>
      if rest == "" then None
      else if rest[0] == '}' then Some(([field], rest[1..]))
      else if rest[0] != ',' then None
      else
        match ReadFields(rest[1..])
        case None => None
        case Some((fields, after)) => Some(([field] + fields, after))
  }

  // ----- Reading back -----

  lemma {:induction false} CharsReadBack(s: string, rest: string)
    ensures ReadString(EscapeChars(s) + ("\"" + rest)) == Some((s, rest))
  {
    var text := EscapeChars(s) + ("\"" + rest);
    if s == "" {
      assert text == "\"" + rest;
    } else {
      CharsReadBack(s[1..], rest);
      var tail := EscapeChars(s[1..]) + ("\"" + rest);
      assert s == [s[0]] + s[1..];
      if s[0] == '\\' {
        assert text == "\\\\" + tail && text[2..] == tail;
      } else if s[0] == '\"' {
        assert text == "\\\"" + tail && text[2..] == tail;
      } else {
        assert text == [s[0]] + tail && text[1..] == tail;
      }
    }
  }

  /** A quoted string ends at its own closing quote, whatever backslashes and quotes it holds. */
  lemma StringReadsBack(s: string, rest: string)
    ensures Quote(s) + rest != "" && (Quote(s) + rest)[0] == '\"'
    ensures ReadString((Quote(s) + rest)[1..]) == Some((s, rest))
  {
    TwoPassesAreOne(s);
    CharsReadBack(s, rest);
    assert (Quote(s) + rest)[1..] == EscapeChars(s) + ("\"" + rest);
  }

  predicate Ends(rest: string) { rest == "" || !D.IsDigit(rest[0]) }

  lemma {:induction false} DecimalBegins(n: nat)
    ensures D.Decimal(n) != "" && D.IsDigit(D.Decimal(n)[0])
  {
    if n >= 10 {
      DecimalBegins(n / 10);
    }
  }

  lemma NatReadsBack(n: nat, rest: string)
    requires Ends(rest)
    ensures var text := D.Decimal(n) + rest;
            text != "" && D.IsDigit(text[0]) && D.ReadNat(text[0] as nat - '0' as nat, text[1..]) == (n, rest)
  {
    DecimalBegins(n);
    D.ReadDecimal(n, rest);
    var text := D.Decimal(n) + rest;
    assert text[0] == D.Decimal(n)[0];
    assert D.ReadNat(0, text) == D.ReadNat(text[0] as nat - '0' as nat, text[1..]);
    assert D.ReadNat(n, rest) == (n, rest);
  }

  lemma IntReadsBack(n: int, rest: string)
    requires Ends(rest)
    ensures ReadInt(IntText(n) + rest) == Some((n, rest))
    ensures IntText(n) != "" && (IntText(n)[0] == '-' || D.IsDigit(IntText(n)[0]))
  {
    hide D.Decimal, D.ReadNat;
    if n < 0 {
      NatReadsBack(-n, rest);
      var text := D.Decimal(-n) + rest;
      assert (IntText(n) + rest)[1..] == text;
      assert D.ReadNat(0, text) == (-n as nat, rest) by { NatFromZero(-n, rest); }
    } else {
      DecimalBegins(n);
      NatReadsBack(n, rest);
    }
  }

  lemma NatFromZero(n: nat, rest: string)
    requires Ends(rest)
    ensures D.ReadNat(0, D.Decimal(n) + rest) == (n, rest)
  {
    D.ReadDecimal(n, rest);
  }

  /** First characters tell values apart, and none of them closes a list or an object. */
  lemma ValueBegins(v: Value)
    ensures Print(v) != "" && Print(v)[0] != ']' && Print(v)[0] != '}'
  {
    if v.Int? {
      IntReadsBack(v.n, "");
    }
  }

  lemma FieldBegins(f: (string, Value))
    ensures PrintField(f) != "" && PrintField(f)[0] == '\"'
  {
  }

  lemma LeafReadsBack(v: Value, rest: string)
    requires Ends(rest) && !v.Arr? && !v.Obj?
    ensures ReadValue(Print(v) + rest) == Some((v, rest))
  {
    hide IntText, Quote, ReadInt, ReadString;
    var text := Print(v) + rest;
    match v
    case Null => assert text[..4] == "null" && text[4..] == rest;
    case Bool(b) =>
      if b {
        assert text[..4] == "true" && text[4..] == rest;
      } else {
        assert text[..5] == "false" && text[5..] == rest;
      }
    case Int(n) => IntReadsBack(n, rest);
    case Str(s) => StringReadsBack(s, rest);
  }

  lemma ListReadsBack(items: seq<Value>, rest: string)
    requires items != [] ==> ReadItems(PrintItems(items) + ("]" + rest)) == Some((items, rest))
    ensures ReadValue(Print(Arr(items)) + rest) == Some((Arr(items), rest))
  {
    hide ReadItems, ReadFields, ReadInt, ReadString;
    var text := Print(Arr(items)) + rest;
    if items == [] {
      assert text == "[]" + rest && text[2..] == rest;
    } else {
      assert text[1..] == PrintItems(items) + ("]" + rest);
      ValueBegins(items[0]);
      assert PrintItems(items)[0] == Print(items[0])[0];
    }
  }

  lemma ObjectReadsBack(fields: seq<(string, Value)>, rest: string)
    requires fields != [] ==> ReadFields(PrintFields(fields) + ("}" + rest)) == Some((fields, rest))
    ensures ReadValue(Print(Obj(fields)) + rest) == Some((Obj(fields), rest))
  {
    hide ReadItems, ReadFields, ReadInt, ReadString;
    var text := Print(Obj(fields)) + rest;
    if fields == [] {
      assert text == "{}" + rest && text[2..] == rest;
    } else {
      assert text[1..] == PrintFields(fields) + ("}" + rest);
      FieldBegins(fields[0]);
      assert PrintFields(fields)[0] == PrintField(fields[0])[0];
    }
  }

  /** Whatever the writer prints, the reader reads back unchanged, and stops exactly behind it. */
  lemma {:induction false} ReadsBack(v: Value, rest: string)
    requires Ends(rest)
    ensures ReadValue(Print(v) + rest) == Some((v, rest))
    decreases v
  {
    hide Print, ReadValue;
    match v
    case Arr(items) =>
      if items != [] { ItemsReadBack(items, rest); }
      ListReadsBack(items, rest);
    case Obj(fields) =>
      if fields != [] { FieldsReadBack(fields, rest); }
      ObjectReadsBack(fields, rest);
    case _ => LeafReadsBack(v, rest);
  }

  lemma Regroup(a: string, b: string, c: string, d: string)
    ensures (a + (b + c)) + d == a + (b + (c + d))
  {
  }

  /** Reading one item of several, and the last one. */
  lemma ItemStep(item: Value, text: string, more: string, items: seq<Value>, rest: string)
    requires ReadValue(text) == Some((item, "," + more)) && ReadItems(more) == Some((items, rest))
    ensures ReadItems(text) == Some(([item] + items, rest))
  {
    hide ReadValue;
    assert ("," + more)[1..] == more;
  }

  lemma LastItem(item: Value, text: string, rest: string)
    requires ReadValue(text) == Some((item, "]" + rest))
    ensures ReadItems(text) == Some(([item], rest))
  {
    hide ReadValue;
    assert ("]" + rest)[1..] == rest;
  }

  lemma {:induction false} ItemsReadBack(items: seq<Value>, rest: string)
    requires items != []
    ensures ReadItems(PrintItems(items) + ("]" + rest)) == Some((items, rest))
    decreases items
  {
    hide Print, ReadValue, ReadItems;
    if |items| == 1 {
      ReadsBack(items[0], "]" + rest);
      LastItem(items[0], Print(items[0]) + ("]" + rest), rest);
      assert [items[0]] == items;
    } else {
      ItemsReadBack(items[1..], rest);
      var more := PrintItems(items[1..]) + ("]" + rest);
      ReadsBack(items[0], "," + more);
      ItemStep(items[0], Print(items[0]) + ("," + more), more, items[1..], rest);
      Regroup(Print(items[0]), ",", PrintItems(items[1..]), "]" + rest);
      assert [items[0]] + items[1..] == items;
    }
  }

  lemma {:induction false} FieldReadsBack(f: (string, Value), rest: string)
    requires Ends(rest)
    ensures ReadField(PrintField(f) + rest) == Some((f, rest))
    decreases f
  {
    hide Print, ReadValue, Quote, ReadString;
    var tail := ":" + (Print(f.1) + rest);
    Regroup(Quote(f.0), ":", Print(f.1), rest);
    StringReadsBack(f.0, tail);
    ReadsBack(f.1, rest);
    assert tail[1..] == Print(f.1) + rest;
  }

  lemma FieldStep(field: (string, Value), text: string, more: string, fields: seq<(string, Value)>, rest: string)
    requires ReadField(text) == Some((field, "," + more)) && ReadFields(more) == Some((fields, rest))
    ensures ReadFields(text) == Some(([field] + fields, rest))
  {
    hide ReadField;
    assert ("," + more)[1..] == more;
  }

  lemma LastField(field: (string, Value), text: string, rest: string)
    requires ReadField(text) == Some((field, "}" + rest))
    ensures ReadFields(text) == Some(([field], rest))
  {
    hide ReadField;
    assert ("}" + rest)[1..] == rest;
  }

  lemma {:induction false} FieldsReadBack(fields: seq<(string, Value)>, rest: string)
    requires fields != []
    ensures ReadFields(PrintFields(fields) + ("}" + rest)) == Some((fields, rest))
    decreases fields
  {
    hide PrintField, ReadField, ReadFields;
    if |fields| == 1 {
      FieldReadsBack(fields[0], "}" + rest);
      LastField(fields[0], PrintField(fields[0]) + ("}" + rest), rest);
      assert [fields[0]] == fields;
    } else {
      FieldsReadBack(fields[1..], rest);
      var more := PrintFields(fields[1..]) + ("}" + rest);
      FieldReadsBack(fields[0], "," + more);
      FieldStep(fields[0], PrintField(fields[0]) + ("," + more), more, fields[1..], rest);
      Regroup(PrintField(fields[0]), ",", PrintFields(fields[1..]), "}" + rest);
      assert [fields[0]] + fields[1..] == fields;
    }
  }

  /** Different values are printed differently. */
  lemma PrintIsInjective(v: Value, w: Value)
    requires Print(v) == Print(w)
    ensures v == w
  {
    ReadsBack(v, "");
    ReadsBack(w, "");
  }
}
