/** JSON output of VAST data: the print traits that decide indentation and
    field separators (`json_print_traits` for indented multi-line JSON,
    `ndjson_print_traits` for one object per line, with or without spaces),
    the quoting of strings, and the `json_visitor` that writes lists, maps
    and records with an `is_first` loop.

    The visitor owns an output iterator and its print traits and updates
    both as it walks the data; it is a class with those two fields here.
    `Format` is the reference definition of what it writes. */
module JsonTraits {
  import opened FormatSpec

  // ---------------------------------------------------------------------
  // Print traits

  /** `json_print_traits{indent}` (an indentation step and the current
      depth) or `ndjson_print_traits<RemoveSpaces>`. */
  datatype PrintTraits = Json(indentSize: nat, currentIndent: nat) | Ndjson(removeSpaces: bool)

  /** `inc_indent`: one level deeper for JSON, nothing for NDJSON. */
  function Inc(t: PrintTraits): (r: PrintTraits)
    ensures Deeper(r) && Dec(r) == t
    ensures r.Ndjson? <==> t.Ndjson?
    ensures t.Ndjson? ==> r == t
  {
    match t
    case Json(size, current) => Json(size, current + 1)
    case Ndjson(_) => t
  }

  /** Traits that `dec_indent` can take back one level. */
  predicate Deeper(t: PrintTraits) {
    t.Json? ==> t.currentIndent > 0
  }

  /** `dec_indent`. */
  function Dec(t: PrintTraits): PrintTraits
    requires Deeper(t)
  {
    match t
    case Json(size, current) => Json(size, current - 1)
    case Ndjson(_) => t
  }

  function Spaces(n: nat): (s: seq<char>)
    ensures |s| == n
    ensures forall i :: 0 <= i < n ==> s[i] == ' '
  {
    if n == 0 then [] else Spaces(n - 1) + " "
  }

  /** `format_indent`: JSON starts a new line indented by the current depth
      times the indentation step; NDJSON writes one space, or nothing when
      spaces are removed. */
  function Indent(t: PrintTraits): (s: seq<char>)
  {
    match t
    case Json(size, current) => "\n" + Spaces(current * size)
    case Ndjson(removeSpaces) => if removeSpaces then [] else [' ']
  }

  /** A line break followed by the indentation of depth `currentIndent`:
      `indentSize` spaces per level. */
  predicate NewLineAt(t: PrintTraits, s: seq<char>)
    requires t.Json?
  {
    && |s| == 1 + t.currentIndent * t.indentSize
    && s[0] == '\n'
    && forall i | 1 <= i < |s| :: s[i] == ' '
  }

  /** `format_indent_before_first_item`. */
  function BeforeFirst(t: PrintTraits): (s: seq<char>)
    ensures t.Json? ==> NewLineAt(t, s)
    ensures t.Ndjson? ==> s == []
  {
    if t.Json? then Indent(t) else []
  }

  /** `format_indent_after_last_item`. */
  function AfterLast(t: PrintTraits): (s: seq<char>)
    ensures t.Json? ==> NewLineAt(t, s)
    ensures t.Ndjson? ==> s == []
  {
    if t.Json? then Indent(t) else []
  }

  // ---------------------------------------------------------------------
  // Quoted strings

  /** A string escaper: what it writes for one character of the input. */
  type Escaper = char -> seq<char>

  /** The escaped text of `s`, character by character. */
  function EscapeAll(esc: Escaper, s: seq<char>): seq<char> {
    if |s| == 0 then [] else EscapeAll(esc, s[..|s| - 1]) + esc(s[|s| - 1])
  }

  /** `escaped_string_view::format`: the escaped text between quotes. */
  function Quoted(esc: Escaper, s: seq<char>): (q: seq<char>)
    ensures |q| >= 2 && q[0] == '"' && q[|q| - 1] == '"'
    ensures q[1..|q| - 1] == EscapeAll(esc, s)
  {
    "\"" + EscapeAll(esc, s) + "\""
  }

  /** Escaping works piecewise: the escape of a concatenation is the
      concatenation of the escapes. */
  lemma {:induction false} EscapeAllAppend(esc: Escaper, a: seq<char>, b: seq<char>)
    ensures EscapeAll(esc, a + b) == EscapeAll(esc, a) + EscapeAll(esc, b)
    decreases |b|
  {
    if b == [] {
      assert a + b == a;
    } else {
      var b' := b[..|b| - 1];
      assert (a + b)[..|a + b| - 1] == a + b';
      assert (a + b)[|a + b| - 1] == b[|b| - 1];
      EscapeAllAppend(esc, a, b');
    }
  }

  /** An escaper that passes every character through unchanged leaves the
      string as it is. */
  lemma {:induction false} EscapeAllIdentity(esc: Escaper, s: seq<char>)
    requires forall c :: esc(c) == [c]
    ensures EscapeAll(esc, s) == s
  {
    if s != [] {
      EscapeAllIdentity(esc, s[..|s| - 1]);
      assert s == s[..|s| - 1] + [s[|s| - 1]];
    }
  }

  /** `format_field_start`: the quoted field name and a colon, followed by
      a space unless NDJSON removes spaces. */
  function FieldStart(esc: Escaper, t: PrintTraits, name: seq<char>): seq<char> {
    Quoted(esc, name) + (if t.Ndjson? && t.removeSpaces then ":" else ": ")
  }

  /** A field starts with the quoted name, then a colon and a space, or
      only the colon for NDJSON without spaces. */
  lemma FieldStartLayout(esc: Escaper, t: PrintTraits, name: seq<char>)
    ensures var s := FieldStart(esc, t, name);
      var q := Quoted(esc, name);
      if t == Ndjson(true) then s == q + ":" && s[|s| - 1] == ':'
      else s == q + ": " && s[|s| - 2..] == ": "
  {
  }

  // ---------------------------------------------------------------------
  // Data and what the visitor writes for it

  /** The data the JSON visitor distinguishes: `nil`, booleans, strings,
      lists, maps and records. Every other value (numbers, addresses,
      durations and times in quotes, ...) is written by a formatter of its
      own; `Scalar` holds that formatter's text. */
  datatype Data =
    | Null
    | Boolean(b: bool)
    | Text(s: seq<char>)
    | Scalar(text: seq<char>)
    | List(items: seq<Data>)
    | Map(entries: seq<(Data, Data)>)
    | Record(fields: seq<(seq<char>, Data)>)

  /** The separator written before item `i` (with the traits inside the
      container): the first-item indent, or a comma and an indent. */
  function Separator(t: PrintTraits, i: nat): seq<char>
  {
    if i == 0 then BeforeFirst(t) else "," + Indent(t)
  }

  /** The items of a container, each after its separator. */
  function Join(t: PrintTraits, parts: seq<seq<char>>): seq<char>
  {
    if |parts| == 0 then []
    else Join(t, parts[..|parts| - 1]) + Separator(t, |parts| - 1) + parts[|parts| - 1]
  }

  /** One more item extends the joined text by its separator and the item. */
  lemma JoinSnoc(t: PrintTraits, parts: seq<seq<char>>, item: seq<char>)
    ensures Join(t, parts + [item]) == Join(t, parts) + Separator(t, |parts|) + item
  {
    assert (parts + [item])[..|parts|] == parts;
  }

  /** What a container with traits `t` writes between its brackets: unless
      it is empty, its items one level deeper and the indent after the last
      item. */
  function Body(t: PrintTraits, parts: seq<seq<char>>): seq<char>
  {
    if |parts| == 0 then [] else Join(Inc(t), parts) + AfterLast(t)
  }

  /** The text the JSON visitor writes for `x` with traits `t`. */
  function Format(esc: Escaper, t: PrintTraits, x: Data): seq<char>
    decreases x, 0
  {
    match x
    case Null => "null"
    case Boolean(b) => if b then "true" else "false"
    case Text(s) => Quoted(esc, s)
    case Scalar(text) => text
    case List(items) => "[" + Body(t, ListParts(esc, Inc(t), items)) + "]"
    case Map(entries) => "[" + Body(t, MapParts(esc, Inc(t), entries)) + "]"
    case Record(fields) => "{" + Body(t, RecordParts(esc, Inc(t), fields)) + "}"
  }

  /** The texts of the items of a list. */
  function ListParts(esc: Escaper, t: PrintTraits, xs: seq<Data>): (ps: seq<seq<char>>)
    ensures |ps| == |xs|
    decreases xs
  {
    if |xs| == 0 then [] else ListParts(esc, t, xs[..|xs| - 1]) + [Format(esc, t, xs[|xs| - 1])]
  }

  /** The texts of the entries of a map. */
  function MapParts(esc: Escaper, t: PrintTraits, es: seq<(Data, Data)>): (ps: seq<seq<char>>)
    ensures |ps| == |es|
    decreases es
  {
    if |es| == 0 then [] else MapParts(esc, t, es[..|es| - 1]) + [Entry(esc, t, es[|es| - 1])]
  }

  /** The texts of the fields of a record. */
  function RecordParts(esc: Escaper, t: PrintTraits, fs: seq<(seq<char>, Data)>): (ps: seq<seq<char>>)
    ensures |ps| == |fs|
    decreases fs
  {
    if |fs| == 0 then [] else RecordParts(esc, t, fs[..|fs| - 1]) + [Member(esc, t, fs[|fs| - 1])]
  }

  /** One map entry, written as the object `{"key": k, "value": v}`. */
  function Entry(esc: Escaper, t: PrintTraits, e: (Data, Data)): seq<char>
    decreases e
  {
    "{" + Body(t, [Field(esc, Inc(t), "key", e.0), Field(esc, Inc(t), "value", e.1)]) + "}"
  }

  /** One field of a record. */
  function Member(esc: Escaper, t: PrintTraits, f: (seq<char>, Data)): seq<char>
    decreases f
  {
    Field(esc, t, f.0, f.1)
  }

  /** A field name and its value. */
  function Field(esc: Escaper, t: PrintTraits, name: seq<char>, value: Data): seq<char>
    decreases value, 1
  {
    FieldStart(esc, t, name) + Format(esc, t, value)
  }

  // ---------------------------------------------------------------------
  // The written text, regrouped as the visitor produces it

  lemma Assoc(a: seq<char>, b: seq<char>, c: seq<char>)
    ensures a + b + c == a + (b + c)
  {
  }

  /** Appending a separator and an item to the output, regrouped. */
  lemma Step(out: seq<char>, joined: seq<char>, sep: seq<char>, item: seq<char>)
    ensures out + joined + sep + item == out + (joined + sep + item)
  {
  }

  /** A container's text after `o`: the brackets alone when it is empty,
      otherwise the opening bracket, the items one level deeper, the indent
      after the last item and the closing bracket. */
  lemma Bracketed(o: seq<char>, open: seq<char>, t: PrintTraits, parts: seq<seq<char>>, close: seq<char>)
    ensures |parts| == 0 ==> o + (open + Body(t, parts) + close) == o + open + close
    ensures |parts| > 0 ==> o + (open + Body(t, parts) + close) == o + open + Join(Inc(t), parts) + AfterLast(t) + close
  {
    var body := Body(t, parts);
    Assoc(o, open + body, close);
    Assoc(o, open, body);
    if |parts| == 0 {
      assert open + body == open;
    } else {
      Assoc(o + open, Join(Inc(t), parts), AfterLast(t));
    }
  }

  lemma ListText(esc: Escaper, o: seq<char>, t: PrintTraits, xs: seq<Data>)
    ensures |xs| == 0 ==> o + Format(esc, t, List(xs)) == o + "[" + "]"
    ensures |xs| > 0 ==> o + Format(esc, t, List(xs)) == o + "[" + Join(Inc(t), ListParts(esc, Inc(t), xs)) + AfterLast(t) + "]"
  {
    Bracketed(o, "[", t, ListParts(esc, Inc(t), xs), "]");
  }

  lemma MapText(esc: Escaper, o: seq<char>, t: PrintTraits, es: seq<(Data, Data)>)
    ensures |es| == 0 ==> o + Format(esc, t, Map(es)) == o + "[" + "]"
    ensures |es| > 0 ==> o + Format(esc, t, Map(es)) == o + "[" + Join(Inc(t), MapParts(esc, Inc(t), es)) + AfterLast(t) + "]"
  {
    Bracketed(o, "[", t, MapParts(esc, Inc(t), es), "]");
  }

  lemma RecordText(esc: Escaper, o: seq<char>, t: PrintTraits, fs: seq<(seq<char>, Data)>)
    ensures |fs| == 0 ==> o + Format(esc, t, Record(fs)) == o + "{" + "}"
    ensures |fs| > 0 ==> o + Format(esc, t, Record(fs)) == o + "{" + Join(Inc(t), RecordParts(esc, Inc(t), fs)) + AfterLast(t) + "}"
  {
    Bracketed(o, "{", t, RecordParts(esc, Inc(t), fs), "}");
  }

  /** A map entry after `o`, piece by piece as `format_map` writes it. */
  lemma EntryText(esc: Escaper, o: seq<char>, t: PrintTraits, e: (Data, Data))
    ensures o + Entry(esc, t, e) == o + "{" + BeforeFirst(Inc(t)) + Field(esc, Inc(t), "key", e.0)
      + "," + Indent(Inc(t)) + Field(esc, Inc(t), "value", e.1) + AfterLast(t) + "}"
  {
    var t' := Inc(t);
    var key := Field(esc, t', "key", e.0);
    var value := Field(esc, t', "value", e.1);
    JoinSnoc(t', [], key);
    JoinSnoc(t', [key], value);
    assert [key] + [value] == [key, value];
    var first := BeforeFirst(t');
    var sep := "," + Indent(t');
    assert Join(t', [key]) == first + key by {
      assert Join(t', []) == [];
    }
    assert Join(t', [key, value]) == first + key + sep + value;
    Bracketed(o, "{", t, [key, value], "}");
    var p := o + "{";
    Assoc(p, first + key + sep, value);
    Assoc(p, first + key, sep);
    Assoc(p, first, key);
    Assoc(p + first + key, ",", Indent(t'));
  }

  /** One more item of a list adds its text to the parts. */
  lemma ListPartsSnoc(esc: Escaper, t: PrintTraits, xs: seq<Data>, i: nat)
    requires i < |xs|
    ensures ListParts(esc, t, xs[..i + 1]) == ListParts(esc, t, xs[..i]) + [Format(esc, t, xs[i])]
  {
    assert xs[..i + 1][..i] == xs[..i];
  }

  /** One more entry of a map adds its text to the parts. */
  lemma MapPartsSnoc(esc: Escaper, t: PrintTraits, es: seq<(Data, Data)>, i: nat)
    requires i < |es|
    ensures MapParts(esc, t, es[..i + 1]) == MapParts(esc, t, es[..i]) + [Entry(esc, t, es[i])]
  {
    assert es[..i + 1][..i] == es[..i];
  }

  /** One more field of a record adds its text to the parts. */
  lemma RecordPartsSnoc(esc: Escaper, t: PrintTraits, fs: seq<(seq<char>, Data)>, i: nat)
    requires i < |fs|
    ensures RecordParts(esc, t, fs[..i + 1]) == RecordParts(esc, t, fs[..i]) + [Member(esc, t, fs[i])]
  {
    assert fs[..i + 1][..i] == fs[..i];
  }

  // ---------------------------------------------------------------------
  // The visitor

  class JsonVisitor {
    const esc: Escaper
    var out: seq<char>
    var traits: PrintTraits

    constructor (esc: Escaper, traits: PrintTraits)
      ensures this.esc == esc && this.traits == traits && out == []
    {
      this.esc := esc;
      this.traits := traits;
      out := [];
    }

    /** `escaped_string_view::format`: an opening quote, the escaper once
        per character until the string is consumed, a closing quote. */
    method FormatEscaped(s: seq<char>)
      modifies this`out
      ensures out == old(out) + Quoted(esc, s)
    {
      out := out + "\"";
      var i := 0;
      while i < |s|
        invariant i <= |s|
        invariant out == old(out) + "\"" + EscapeAll(esc, s[..i])
      {
        assert s[..i + 1][..i] == s[..i];
        out := out + esc(s[i]);
        i := i + 1;
      }
      assert s[..i] == s;
      out := out + "\"";
    }

    /** `format_field_start`. */
    method FormatFieldStart(name: seq<char>)
      modifies this`out
      ensures out == old(out) + FieldStart(esc, traits, name)
    {
      FormatEscaped(name);
      Assoc(old(out), Quoted(esc, name), if traits.Ndjson? && traits.removeSpaces then ":" else ": ");
      out := out + (if traits.Ndjson? && traits.removeSpaces then ":" else ": ");
    }

    /** The separator of the `is_first` loops: before the first item the
        first-item indent, before every other a comma and an indent. */
    method FormatSeparator(isFirst: bool, ghost i: nat) returns (isFirst': bool)
      requires isFirst == (i == 0)
      modifies this`out
      ensures out == old(out) + Separator(traits, i)
      ensures !isFirst'
    {
      if isFirst {
        isFirst' := false;
        out := out + BeforeFirst(traits);
      } else {
        isFirst' := false;
        out := out + "," + Indent(traits);
      }
    }

    /** `caf::visit(*this, x)`: write `x`; the traits are left as found. */
    method Visit(x: Data)
      modifies this`out, this`traits
      ensures out == old(out) + Format(esc, old(traits), x)
      ensures traits == old(traits)
      decreases x, 3
    {
      match x
      case Null => out := out + "null";
      case Boolean(b) => out := out + (if b then "true" else "false");
      case Text(s) => FormatEscaped(s);
      case Scalar(text) => out := out + text;
      case List(items) => FormatList(items);
      case Map(entries) => FormatMap(entries);
      case Record(fields) => FormatRecord(fields);
    }

    /** `format_list`. Its closing bracket is assigned through the output
        iterator without advancing it; with an appending output that is the
        same as writing it. */
    method FormatList(xs: seq<Data>)
      modifies this`out, this`traits
      ensures traits == old(traits)
      ensures out == old(out) + Format(esc, old(traits), List(xs))
      decreases xs, 2
    {
      ListText(esc, out, traits, xs);
      out := out + "[";
      if |xs| > 0 {
        traits := Inc(traits);
        FormatItems(xs);
        traits := Dec(traits);
        out := out + AfterLast(traits);
      }
      out := out + "]";
    }

    /** The `is_first` loop of `format_list`. */
    method FormatItems(xs: seq<Data>)
      modifies this`out, this`traits
      ensures traits == old(traits)
      ensures out == old(out) + Join(traits, ListParts(esc, traits, xs))
      decreases xs, 1
    {
      var isFirst := true;
      var i := 0;
      ghost var written: seq<seq<char>> := [];
      while i < |xs|
        invariant i <= |xs| && isFirst == (i == 0) && traits == old(traits)
        invariant written == ListParts(esc, traits, xs[..i])
        invariant out == old(out) + Join(traits, written)
      {
        isFirst := FormatSeparator(isFirst, i);
        Visit(xs[i]);
        ghost var item := Format(esc, traits, xs[i]);
        Step(old(out), Join(traits, written), Separator(traits, i), item);
        JoinSnoc(traits, written, item);
        ListPartsSnoc(esc, traits, xs, i);
        written := written + [item];
        i := i + 1;
      }
      assert xs[..i] == xs;
    }

    /** `format_map`: a list of `{"key": .., "value": ..}` objects. */
    method FormatMap(es: seq<(Data, Data)>)
      modifies this`out, this`traits
      ensures traits == old(traits)
      ensures out == old(out) + Format(esc, old(traits), Map(es))
      decreases es, 2
    {
      MapText(esc, out, traits, es);
      out := out + "[";
      if |es| > 0 {
        traits := Inc(traits);
        FormatEntries(es);
        traits := Dec(traits);
        out := out + AfterLast(traits);
      }
      out := out + "]";
    }

    /** The `is_first` loop of `format_map`. */
    method FormatEntries(es: seq<(Data, Data)>)
      modifies this`out, this`traits
      ensures traits == old(traits)
      ensures out == old(out) + Join(traits, MapParts(esc, traits, es))
      decreases es, 1
    {
      var isFirst := true;
      var i := 0;
      ghost var written: seq<seq<char>> := [];
      while i < |es|
        invariant i <= |es| && isFirst == (i == 0) && traits == old(traits)
        invariant written == MapParts(esc, traits, es[..i])
        invariant out == old(out) + Join(traits, written)
      {
        isFirst := FormatSeparator(isFirst, i);
        FormatEntry(es[i]);
        ghost var item := Entry(esc, traits, es[i]);
        Step(old(out), Join(traits, written), Separator(traits, i), item);
        JoinSnoc(traits, written, item);
        MapPartsSnoc(esc, traits, es, i);
        written := written + [item];
        i := i + 1;
      }
      assert es[..i] == es;
    }

    /** The body of the `format_map` loop for one entry. */
    method FormatEntry(e: (Data, Data))
      modifies this`out, this`traits
      ensures traits == old(traits)
      ensures out == old(out) + Entry(esc, old(traits), e)
      decreases e
    {
      EntryText(esc, out, traits, e);
      out := out + "{";
      traits := Inc(traits);
      out := out + BeforeFirst(traits);
      FormatField("key", e.0);
      out := out + "," + Indent(traits);
      FormatField("value", e.1);
      traits := Dec(traits);
      out := out + AfterLast(traits);
      out := out + "}";
    }

    /** `format_field_start` followed by the visit of the value. */
    method FormatField(name: seq<char>, value: Data)
      modifies this`out, this`traits
      ensures traits == old(traits)
      ensures out == old(out) + Field(esc, old(traits), name, value)
      decreases value, 4
    {
      FormatFieldStart(name);
      Visit(value);
      Assoc(old(out), FieldStart(esc, traits, name), Format(esc, traits, value));
    }

    /** `format_record`: the fields as `"name": value`. */
    method FormatRecord(fs: seq<(seq<char>, Data)>)
      modifies this`out, this`traits
      ensures traits == old(traits)
      ensures out == old(out) + Format(esc, old(traits), Record(fs))
      decreases fs, 2
    {
      RecordText(esc, out, traits, fs);
      out := out + "{";
      if |fs| > 0 {
        traits := Inc(traits);
        FormatFields(fs);
        traits := Dec(traits);
        out := out + AfterLast(traits);
      }
      out := out + "}";
    }

    /** The `is_first` loop of `format_record`. */
    method FormatFields(fs: seq<(seq<char>, Data)>)
      modifies this`out, this`traits
      ensures traits == old(traits)
      ensures out == old(out) + Join(traits, RecordParts(esc, traits, fs))
      decreases fs, 1
    {
      var isFirst := true;
      var i := 0;
      ghost var written: seq<seq<char>> := [];
      while i < |fs|
        invariant i <= |fs| && isFirst == (i == 0) && traits == old(traits)
        invariant written == RecordParts(esc, traits, fs[..i])
        invariant out == old(out) + Join(traits, written)
      {
        isFirst := FormatSeparator(isFirst, i);
        FormatMember(fs[i]);
        ghost var item := Member(esc, traits, fs[i]);
        Step(old(out), Join(traits, written), Separator(traits, i), item);
        JoinSnoc(traits, written, item);
        RecordPartsSnoc(esc, traits, fs, i);
        written := written + [item];
        i := i + 1;
      }
      assert fs[..i] == fs;
    }

    /** The body of the `format_record` loop for one field. */
    method FormatMember(f: (seq<char>, Data))
      modifies this`out, this`traits
      ensures traits == old(traits)
      ensures out == old(out) + Member(esc, old(traits), f)
      decreases f
    {
      FormatField(f.0, f.1);
    }
  }

  // ---------------------------------------------------------------------
  // Choosing the visitor

  /** What `format` does for the parsed options: the ASCII visitor, the
      JSON visitor with NDJSON or indenting traits, or nothing for YAML and
      every other presentation. */
  datatype Presentation = AsciiText | JsonText(traits: PrintTraits) | Nothing

  /** An indentation `json_print_traits` can be given: the parse only ever
      produces a non-negative one. */
  predicate IndentOk(o: Options) {
    o.presentation == 'j' && !o.ndjson ==> o.indent >= 0
  }

  /** `format`: the dispatch on the presentation; the JSON traits start at
      depth zero. */
  function Presenter(o: Options): Presentation
    requires IndentOk(o)
  {
    if o.presentation == 'a' then AsciiText
    else if o.presentation == 'j' then
      if o.ndjson then JsonText(Ndjson(o.removeSpaces)) else JsonText(Json(o.indent, 0))
    else Nothing
  }

  /** Options parsed from the defaults can always be presented; JSON is
      chosen exactly by a leading `j`, NDJSON exactly by a leading `jn`. */
  lemma ParsedPresenter(ctx: seq<char>)
    ensures IndentOk(ParseSpec(Defaults, ctx).0)
    ensures Presenter(ParseSpec(Defaults, ctx).0).JsonText? <==> |ctx| > 0 && ctx[0] == 'j'
    ensures Presenter(ParseSpec(Defaults, ctx).0) == JsonText(Ndjson(false)) || Presenter(ParseSpec(Defaults, ctx).0) == JsonText(Ndjson(true))
      <==> |ctx| > 1 && ctx[0] == 'j' && ctx[1] == 'n'
  {
    ParseIndentRange(Defaults, ctx);
  }

  /** `{:jnr}` selects NDJSON without spaces, `{:j}` indents by two. */
  lemma PresenterExamples()
    ensures Presenter(ParseSpec(Defaults, "jnr}").0) == JsonText(Ndjson(true))
    ensures Presenter(ParseSpec(Defaults, "jn}").0) == JsonText(Ndjson(false))
    ensures Presenter(ParseSpec(Defaults, "j}").0) == JsonText(Json(2, 0))
    ensures Presenter(ParseSpec(Defaults, "ji4}").0) == JsonText(Json(4, 0))
    ensures Presenter(ParseSpec(Defaults, "y}").0) == Nothing
  {
    ParseNdjson(Defaults, []);
    assert "jn}" + [] == "jn}" && "jnr}" + [] == "jnr}";
    ParseIndentDigit(Defaults, true, '4', "}");
    assert "ji" + ['4'] + "}" == "ji4}";
  }

  /** `do_format` with the JSON visitor: a fresh visitor over an empty
      output writes the text of `x` and keeps its traits. */
  method FormatJson(o: Options, esc: Escaper, x: Data) returns (text: seq<char>)
    requires IndentOk(o) && o.presentation == 'j'
    ensures text == Format(esc, Presenter(o).traits, x)
  {
    var v := new JsonVisitor(esc, Presenter(o).traits);
    v.Visit(x);
    text := v.out;
  }

  // ---------------------------------------------------------------------
  // What the visitor writes

  /** Empty containers are the bare brackets, whatever the traits. */
  lemma EmptyContainers(esc: Escaper, t: PrintTraits)
    ensures Format(esc, t, List([])) == "[]"
    ensures Format(esc, t, Map([])) == "[]"
    ensures Format(esc, t, Record([])) == "{}"
  {
    ListText(esc, [], t, []);
    MapText(esc, [], t, []);
    RecordText(esc, [], t, []);
  }

  /** The joined items start with the first-item indent. */
  lemma {:induction false} JoinBegins(t: PrintTraits, parts: seq<seq<char>>)
    requires |parts| > 0
    ensures BeforeFirst(t) <= Join(t, parts)
  {
    var init := parts[..|parts| - 1];
    if |init| > 0 {
      JoinBegins(t, init);
    }
  }

  lemma PrefixWithin(p: seq<char>, a: seq<char>, b: seq<char>, c: seq<char>)
    requires p <= b
    ensures a + p <= a + b + c
  {
    assert (a + b + c)[..|a + p|] == a + p;
  }

  lemma SuffixOf(a: seq<char>, b: seq<char>)
    ensures (a + b)[|a + b| - |b|..] == b
  {
  }

  /** In indented JSON the body of a non-empty container starts a new line
      one step deeper than the container and ends with a new line at the
      container's own depth. */
  lemma JsonBodyLayout(size: nat, depth: nat, parts: seq<seq<char>>)
    requires |parts| > 0
    ensures var b := Body(Json(size, depth), parts);
      "\n" + Spaces((depth + 1) * size) <= b
      && |b| >= depth * size + 1
      && b[|b| - (depth * size + 1)..] == "\n" + Spaces(depth * size)
  {
    var t := Json(size, depth);
    var j := Join(Inc(t), parts);
    Widths(size, depth);
    var last := Indent(t);
    var deeper := Inc(t);
    assert deeper == Json(size, depth + 1);
    var first := BeforeFirst(deeper);
    assert first == Indent(deeper);
    JoinBegins(Inc(t), parts);
    assert j + last == Body(t, parts);
    assert (j + last)[..|first|] == first;
    SuffixOf(j, last);
  }

  /** The indentation widths at a depth and one step deeper. */
  lemma Widths(size: nat, depth: nat)
    ensures depth * size >= 0 && (depth + 1) * size == depth * size + size
  {
  }

  /** The last characters of a bracketed text are the last characters of
      the text and the closing bracket. */
  lemma BracketedSuffix(open: seq<char>, b: seq<char>, close: seq<char>, n: nat)
    requires n <= |b|
    ensures var s := open + b + close;
      |s| >= n + |close| && s[|s| - (n + |close|)..] == b[|b| - n..] + close
  {
    var s := open + b + close;
    assert s[|s| - (n + |close|)..] == b[|b| - n..] + close by {
      assert s == (open + b[..|b| - n]) + (b[|b| - n..] + close);
    }
  }

  /** JSON puts the items of a non-empty list on new lines indented one
      step deeper than the list, and the closing bracket on a new line at
      the list's own depth. */
  lemma JsonLayout(esc: Escaper, size: nat, depth: nat, xs: seq<Data>)
    requires |xs| > 0
    ensures var s := Format(esc, Json(size, depth), List(xs));
      "[\n" + Spaces((depth + 1) * size) <= s
      && |s| >= depth * size + 2
      && s[|s| - (depth * size + 2)..] == "\n" + Spaces(depth * size) + "]"
  {
    var t := Json(size, depth);
    Widths(size, depth);
    var b := Body(t, ListParts(esc, Inc(t), xs));
    assert Format(esc, t, List(xs)) == "[" + b + "]";
    JsonBodyLayout(size, depth, ListParts(esc, Inc(t), xs));
    BracketLayout(b, Spaces((depth + 1) * size), Spaces(depth * size));
  }

  /** A body that starts and ends with line breaks keeps them inside its
      brackets. */
  lemma BracketLayout(b: seq<char>, first: seq<char>, last: seq<char>)
    requires "\n" + first <= b
    requires |b| >= |last| + 1 && b[|b| - (|last| + 1)..] == "\n" + last
    ensures var s := "[" + b + "]";
      "[\n" + first <= s
      && |s| >= |last| + 2
      && s[|s| - (|last| + 2)..] == "\n" + last + "]"
  {
    var s := "[" + b + "]";
    PrefixWithin("\n" + first, "[", b, "]");
    assert "[" + ("\n" + first) == "[\n" + first;
    BracketedSuffix("[", b, "]", |last| + 1);
  }

  /** `c` occurs in the text of no scalar of `x`. */
  predicate ScalarsAvoid(x: Data, c: char)
    decreases x, 0
  {
    match x
    case Scalar(text) => c !in text
    case List(items) => ItemsAvoid(items, c)
    case Map(entries) => EntriesAvoid(entries, c)
    case Record(fields) => FieldsAvoid(fields, c)
    case _ => true
  }

  predicate ItemsAvoid(xs: seq<Data>, c: char)
    decreases xs
  {
    forall i :: 0 <= i < |xs| ==> ScalarsAvoid(xs[i], c)
  }

  predicate EntriesAvoid(es: seq<(Data, Data)>, c: char)
    decreases es
  {
    forall i :: 0 <= i < |es| ==> EntryAvoids(es[i], c)
  }

  predicate EntryAvoids(e: (Data, Data), c: char)
    decreases e
  {
    ScalarsAvoid(e.0, c) && ScalarsAvoid(e.1, c)
  }

  predicate FieldsAvoid(fs: seq<(seq<char>, Data)>, c: char)
    decreases fs
  {
    forall i :: 0 <= i < |fs| ==> MemberAvoids(fs[i], c)
  }

  predicate MemberAvoids(f: (seq<char>, Data), c: char)
    decreases f
  {
    ScalarsAvoid(f.1, c)
  }

  /** A character that NDJSON traits `t` never write themselves: no
      bracket, brace, comma, colon, quote or letter of `null`, `true`,
      `false`, and no space unless spaces are removed. */
  predicate NotWritten(t: PrintTraits, c: char) {
    t.Ndjson? && c !in "[]{},:\"nulltruefalse" && (c == ' ' ==> t.removeSpaces)
  }

  lemma {:induction false} EscapeAllAvoids(esc: Escaper, s: seq<char>, c: char)
    requires forall ch :: c !in esc(ch)
    ensures c !in EscapeAll(esc, s)
  {
    if |s| > 0 {
      EscapeAllAvoids(esc, s[..|s| - 1], c);
    }
  }

  lemma FieldStartAvoids(esc: Escaper, t: PrintTraits, name: seq<char>, c: char)
    requires NotWritten(t, c) && forall ch :: c !in esc(ch)
    ensures c !in FieldStart(esc, t, name)
  {
    EscapeAllAvoids(esc, name, c);
  }

  /** A separator of NDJSON traits holds only what the traits write. */
  lemma SeparatorAvoids(t: PrintTraits, i: nat, c: char)
    requires NotWritten(t, c)
    ensures c !in Separator(t, i)
  {
  }

  /** A container's body avoids `c` when its items do. */
  lemma {:induction false} JoinAvoids(t: PrintTraits, parts: seq<seq<char>>, c: char)
    requires NotWritten(t, c)
    requires forall i :: 0 <= i < |parts| ==> c !in parts[i]
    ensures c !in Body(t, parts) && c !in Join(t, parts)
  {
    if |parts| > 0 {
      JoinAvoids(t, parts[..|parts| - 1], c);
      SeparatorAvoids(t, |parts| - 1, c);
    }
  }

  /** NDJSON writes `c` only where a scalar or the escaper does. */
  lemma {:induction false} FormatAvoids(esc: Escaper, t: PrintTraits, x: Data, c: char)
    requires NotWritten(t, c) && forall ch :: c !in esc(ch)
    requires ScalarsAvoid(x, c)
    ensures c !in Format(esc, t, x)
    decreases x, 0
  {
    match x
    case Text(s) => EscapeAllAvoids(esc, s, c);
    case List(items) =>
      ListAvoids(esc, t, items, c);
      JoinAvoids(t, ListParts(esc, t, items), c);
    case Map(entries) =>
      MapAvoids(esc, t, entries, c);
      JoinAvoids(t, MapParts(esc, t, entries), c);
    case Record(fields) =>
      RecordAvoids(esc, t, fields, c);
      JoinAvoids(t, RecordParts(esc, t, fields), c);
    case _ =>
  }

  lemma {:induction false} ListAvoids(esc: Escaper, t: PrintTraits, xs: seq<Data>, c: char)
    requires NotWritten(t, c) && forall ch :: c !in esc(ch)
    requires ItemsAvoid(xs, c)
    ensures forall i :: 0 <= i < |xs| ==> c !in ListParts(esc, t, xs)[i]
    decreases xs
  {
    if |xs| > 0 {
      ListAvoids(esc, t, xs[..|xs| - 1], c);
      FormatAvoids(esc, t, xs[|xs| - 1], c);
    }
  }

  lemma {:induction false} MapAvoids(esc: Escaper, t: PrintTraits, es: seq<(Data, Data)>, c: char)
    requires NotWritten(t, c) && forall ch :: c !in esc(ch)
    requires EntriesAvoid(es, c)
    ensures forall i :: 0 <= i < |es| ==> c !in MapParts(esc, t, es)[i]
    decreases es
  {
    if |es| > 0 {
      MapAvoids(esc, t, es[..|es| - 1], c);
      EntryAvoid(esc, t, es[|es| - 1], c);
    }
  }

  lemma {:induction false} EntryAvoid(esc: Escaper, t: PrintTraits, e: (Data, Data), c: char)
    requires NotWritten(t, c) && forall ch :: c !in esc(ch)
    requires EntryAvoids(e, c)
    ensures c !in Entry(esc, t, e)
    decreases e
  {
    FieldAvoids(esc, t, "key", e.0, c);
    FieldAvoids(esc, t, "value", e.1, c);
    JoinAvoids(t, [Field(esc, t, "key", e.0), Field(esc, t, "value", e.1)], c);
  }

  lemma {:induction false} RecordAvoids(esc: Escaper, t: PrintTraits, fs: seq<(seq<char>, Data)>, c: char)
    requires NotWritten(t, c) && forall ch :: c !in esc(ch)
    requires FieldsAvoid(fs, c)
    ensures forall i :: 0 <= i < |fs| ==> c !in RecordParts(esc, t, fs)[i]
    decreases fs
  {
    if |fs| > 0 {
      RecordAvoids(esc, t, fs[..|fs| - 1], c);
      MemberAvoid(esc, t, fs[|fs| - 1], c);
    }
  }

  lemma {:induction false} MemberAvoid(esc: Escaper, t: PrintTraits, f: (seq<char>, Data), c: char)
    requires NotWritten(t, c) && forall ch :: c !in esc(ch)
    requires MemberAvoids(f, c)
    ensures c !in Member(esc, t, f)
    decreases f
  {
    FieldAvoids(esc, t, f.0, f.1, c);
  }

  lemma {:induction false} FieldAvoids(esc: Escaper, t: PrintTraits, name: seq<char>, value: Data, c: char)
    requires NotWritten(t, c) && forall ch :: c !in esc(ch)
    requires ScalarsAvoid(value, c)
    ensures c !in Field(esc, t, name, value)
    decreases value, 1
  {
    FieldStartAvoids(esc, t, name, c);
    FormatAvoids(esc, t, value, c);
  }

  /** NDJSON writes each value on a single line: no newline appears unless
      a scalar's text or the escaper writes one. */
  lemma NdjsonOneLine(esc: Escaper, removeSpaces: bool, x: Data)
    requires forall ch :: '\n' !in esc(ch)
    requires ScalarsAvoid(x, '\n')
    ensures '\n' !in Format(esc, Ndjson(removeSpaces), x)
  {
    FormatAvoids(esc, Ndjson(removeSpaces), x, '\n');
  }

  /** NDJSON without spaces writes no space of its own. */
  lemma NdjsonNoSpaces(esc: Escaper, x: Data)
    requires forall ch :: ' ' !in esc(ch)
    requires ScalarsAvoid(x, ' ')
    ensures ' ' !in Format(esc, Ndjson(true), x)
  {
    FormatAvoids(esc, Ndjson(true), x, ' ');
  }

  /** An escaper that writes every character as it is. */
  function Verbatim(c: char): seq<char> {
    [c]
  }

  /** Two items: the first-item indent, the first, a comma and an indent,
      the second. */
  lemma JoinTwo(t: PrintTraits, a: seq<char>, b: seq<char>)
    ensures Join(t, [a, b]) == BeforeFirst(t) + a + ("," + Indent(t)) + b
  {
    JoinSnoc(t, [], a);
    JoinSnoc(t, [a], b);
    assert [a] + [b] == [a, b];
    assert Join(t, [a]) == BeforeFirst(t) + a by {
      assert Join(t, []) == [];
    }
  }

  lemma ListTwo(t: PrintTraits, x: Data, y: Data)
    ensures ListParts(Verbatim, t, [x, y]) == [Format(Verbatim, t, x), Format(Verbatim, t, y)]
  {
    assert [x, y][..1] == [x];
    assert [x][..0] == [];
  }

  /** Indented JSON: the item on a line of its own, two spaces deep, and
      the closing bracket back at the start of a line. */
  lemma JsonListExample()
    ensures Format(Verbatim, Json(2, 0), List([Null])) == "[\n  null\n]"
  {
    var t := Json(2, 0);
    assert [Null][..0] == [];
    assert ListParts(Verbatim, Inc(t), [Null]) == ["null"];
    SingleJoin(Inc(t), "null");
    ListText(Verbatim, [], t, [Null]);
    IndentExample();
  }

  /** Two-space JSON indents nothing at depth zero and two spaces at depth
      one. */
  lemma IndentExample()
    ensures Indent(Json(2, 0)) == "\n" && Indent(Json(2, 1)) == "\n  "
  {
    assert Spaces(2) == "  " by {
      assert Spaces(1) == " ";
    }
  }

  /** NDJSON: the same list on one line, with and without spaces. */
  lemma NdjsonListExample(removeSpaces: bool)
    ensures Format(Verbatim, Ndjson(removeSpaces), List([Null, Boolean(true)]))
      == if removeSpaces then "[null,true]" else "[null, true]"
  {
    var t := Ndjson(removeSpaces);
    ListTwo(t, Null, Boolean(true));
    JoinTwo(t, "null", "true");
    ListText(Verbatim, [], t, [Null, Boolean(true)]);
  }

  /** With the verbatim escaper a name is written between quotes. */
  lemma QuotedVerbatim(s: seq<char>)
    ensures Quoted(Verbatim, s) == "\"" + s + "\""
  {
    EscapeAllIdentity(Verbatim, s);
  }

  lemma SingleJoin(t: PrintTraits, item: seq<char>)
    ensures Join(t, [item]) == BeforeFirst(t) + item
  {
    JoinSnoc(t, [], item);
    assert Join(t, []) == [];
  }

  /** A record field is its quoted name, a colon and a space, and its
      value. */
  lemma RecordExample()
    ensures Format(Verbatim, Ndjson(false), Record([("a", Scalar("1"))])) == "{\"a\": 1}"
  {
    var t := Ndjson(false);
    var fs := [("a", Scalar("1"))];
    QuotedVerbatim("a");
    var field := Member(Verbatim, t, fs[0]);
    assert field == "\"a\": 1";
    assert fs[..0] == [];
    assert RecordParts(Verbatim, t, fs) == [field];
    SingleJoin(t, field);
    RecordText(Verbatim, [], t, fs);
  }

  /** Without spaces a field is its quoted name, a colon and its value. */
  lemma FieldExamples()
    ensures Field(Verbatim, Ndjson(true), "key", Null) == "\"key\":null"
    ensures Field(Verbatim, Ndjson(true), "value", Boolean(false)) == "\"value\":false"
  {
    QuotedVerbatim("key");
    QuotedVerbatim("value");
  }

  /** In NDJSON a map entry is the object `{"key": k, "value": v}` on one
      line: the two fields, separated by a comma and, unless spaces are
      removed, a space. */
  lemma NdjsonEntry(esc: Escaper, removeSpaces: bool, e: (Data, Data))
    ensures var t := Ndjson(removeSpaces);
      Entry(esc, t, e) == "{" + Field(esc, t, "key", e.0) + "," + (if removeSpaces then "" else " ")
        + Field(esc, t, "value", e.1) + "}"
  {
    var t := Ndjson(removeSpaces);
    var key := Field(esc, t, "key", e.0);
    var value := Field(esc, t, "value", e.1);
    var sep := if removeSpaces then "" else " ";
    EntryText(esc, [], t, e);
    assert Inc(t) == t && BeforeFirst(t) == [] && AfterLast(t) == [] && Indent(t) == sep;
    calc {
      Entry(esc, t, e);
      [] + Entry(esc, t, e);
      [] + "{" + [] + key + "," + sep + value + [] + "}";
      { assert [] + "{" + [] == "{"; }
      "{" + key + "," + sep + value + [] + "}";
      { assert "{" + key + "," + sep + value + [] == "{" + key + "," + sep + value; }
      "{" + key + "," + sep + value + "}";
    }
  }
}
