/** The format-spec parser for VAST data: the text between `{:` and `}` in
    an fmt format string selects the presentation (`a` ASCII, `y` YAML,
    `j` JSON) and, for JSON, either NDJSON (`n`, optionally `r` to remove
    spaces) or an indentation of one or two decimal digits (optionally
    introduced by `i`).

    `vast_formatter_base` is a struct whose fields `parse` assigns in place;
    it is a class here.  `ParseSpec` is the reference definition the method
    is proved against; the lemmas below state what a spec means. */
module FormatSpec {

  /** The formatting options `parse` sets. */
  datatype Options = Options(presentation: char, ndjson: bool, removeSpaces: bool, indent: int)

  /** The member initialisers of `vast_formatter_base`. */
  const Defaults := Options('a', false, false, 2)

  /** Where `parse` returns: at the closing brace (or at the start of an
      empty spec), or it throws `format_error`. */
  datatype Outcome = Stop(pos: nat) | FormatError

  /** `std::isdigit` in the C locale. */
  predicate IsDigit(c: char) {
    '0' <= c <= '9'
  }

  function DigitValue(c: char): (v: int)
    requires IsDigit(c)
    ensures 0 <= v <= 9
  {
    c as int - '0' as int
  }

  /** The garbage check: the parse may only stop at a `}`.  Stopping at the
      end of the spec dereferences the end iterator; that is an error here. */
  function Close(ctx: seq<char>, i: nat): Outcome
    requires i <= |ctx|
  {
    if i < |ctx| && ctx[i] == '}' then Stop(i) else FormatError
  }

  /** The JSON options after the leading `j`: the options and the position
      where the JSON part of the spec ends. */
  function JsonSpec(o: Options, ctx: seq<char>): (r: (Options, nat))
    requires ctx != [] && ctx[0] == 'j'
    ensures 1 <= r.1 <= |ctx|
    ensures r.0.presentation == o.presentation
  {
    if |ctx| == 1 || ctx[1] == '}' then (o, 1)
    else if ctx[1] == 'n' then
      if |ctx| == 2 then (o.(ndjson := true), 2)
      else if ctx[2] == 'r' then (o.(ndjson := true, removeSpaces := true), 3)
      else (o.(ndjson := true, removeSpaces := false), 2)
    else if ctx[1] == 'i' || IsDigit(ctx[1]) then
      var i := if ctx[1] == 'i' then 2 else 1;
      if i < |ctx| && IsDigit(ctx[i]) then
        if i + 1 < |ctx| && IsDigit(ctx[i + 1]) then
          (o.(indent := DigitValue(ctx[i]) * 10 + DigitValue(ctx[i + 1])), i + 2)
        else (o.(indent := DigitValue(ctx[i])), i + 1)
      else (o, i)
    else (o, 1)
  }

  /** The options after parsing `ctx` from options `o`, and the outcome. */
  function ParseSpec(o: Options, ctx: seq<char>): (Options, Outcome) {
    if ctx == [] then (o, Stop(0))
    else if ctx[0] == 'a' || ctx[0] == 'y' then (o.(presentation := ctx[0]), Close(ctx, 1))
    else if ctx[0] == 'j' then
      var json := JsonSpec(o.(presentation := 'j'), ctx);
      (json.0, Close(ctx, json.1))
    else (o, Close(ctx, 0))
  }

  class VastFormatterBase {
    var presentation: char
    var ndjson: bool
    var removeSpaces: bool
    var indent: int

    function Current(): Options
      reads this
    {
      Options(presentation, ndjson, removeSpaces, indent)
    }

    constructor ()
      ensures Current() == Defaults
    {
      presentation := 'a';
      ndjson := false;
      removeSpaces := false;
      indent := 2;
    }

    /** `parse`: read the spec `ctx` with an iterator, assigning the
        options as they are recognised. */
    method Parse(ctx: seq<char>) returns (r: Outcome)
      modifies this
      ensures (Current(), r) == ParseSpec(old(Current()), ctx)
    {
      var it := 0;
      if it == |ctx| {
        return Stop(it);
      }
      if ctx[it] == 'a' || ctx[it] == 'y' {
        presentation := ctx[it];
        it := it + 1;
      } else if ctx[it] == 'j' {
        presentation := 'j';
        it := it + 1;
        if it != |ctx| && ctx[it] != '}' {
          if ctx[it] == 'n' {
            ndjson := true;
            it := it + 1;
            if it != |ctx| {
              removeSpaces := ctx[it] == 'r';
              if removeSpaces {
                it := it + 1;
              }
            }
          } else if ctx[it] == 'i' || IsDigit(ctx[it]) {
            if ctx[it] == 'i' {
              it := it + 1;
            }
            if it != |ctx| && IsDigit(ctx[it]) {
              indent := DigitValue(ctx[it]);
              it := it + 1;
              if it != |ctx| && IsDigit(ctx[it]) {
                indent := indent * 10 + DigitValue(ctx[it]);
                it := it + 1;
              }
            }
          }
        }
      }
      if it == |ctx| || ctx[it] != '}' {
        return FormatError;
      }
      return Stop(it);
    }
  }

  // ---------------------------------------------------------------------
  // What a spec means

  /** An empty spec changes nothing and stops at its start. */
  lemma ParseEmpty(o: Options)
    ensures ParseSpec(o, []) == (o, Stop(0))
  {
  }

  /** A successful parse stops at a closing brace, unless the spec is
      empty. */
  lemma ParseStopsAtBrace(o: Options, ctx: seq<char>)
    requires ParseSpec(o, ctx).1.Stop?
    ensures var p := ParseSpec(o, ctx).1.pos;
      (ctx == [] && p == 0) || (p < |ctx| && ctx[p] == '}')
  {
  }

  /** `a` and `y` set the presentation and nothing else; the spec must
      close right after the letter. */
  lemma ParsePresentation(o: Options, c: char, rest: seq<char>)
    requires c == 'a' || c == 'y'
    ensures ParseSpec(o, [c] + rest).0 == o.(presentation := c)
    ensures ParseSpec(o, [c] + rest).1 == if rest != [] && rest[0] == '}' then Stop(1) else FormatError
  {
    assert ([c] + rest)[0] == c;
    assert |rest| > 0 ==> ([c] + rest)[1] == rest[0];
  }

  /** `jn` selects NDJSON; a following `r` removes spaces, any other
      character keeps them, and at the end of the spec `remove_spaces` is
      left alone.  Whatever comes after, the spec must close right there. */
  lemma ParseNdjson(o: Options, rest: seq<char>)
    ensures var ctx := "jnr" + rest;
      ParseSpec(o, ctx) == (o.(presentation := 'j', ndjson := true, removeSpaces := true), Close(ctx, 3))
    ensures rest == [] ==> ParseSpec(o, "jn") == (o.(presentation := 'j', ndjson := true), FormatError)
    ensures rest != [] && rest[0] != 'r' ==> var ctx := "jn" + rest;
      ParseSpec(o, ctx) == (o.(presentation := 'j', ndjson := true, removeSpaces := false), Close(ctx, 2))
    ensures ParseSpec(o, "jn}" + rest) == (o.(presentation := 'j', ndjson := true, removeSpaces := false), Stop(2))
    ensures ParseSpec(o, "jnr}" + rest) == (o.(presentation := 'j', ndjson := true, removeSpaces := true), Stop(3))
  {
    var ctx := "jnr" + rest;
    assert ctx[0] == 'j' && ctx[1] == 'n' && ctx[2] == 'r' && |ctx| >= 3;
    if rest != [] {
      var ctx2 := "jn" + rest;
      assert ctx2[0] == 'j' && ctx2[1] == 'n' && ctx2[2] == rest[0] && |ctx2| >= 3;
    }
    var c3 := "jn}" + rest;
    assert c3[0] == 'j' && c3[1] == 'n' && c3[2] == '}' && |c3| >= 3;
    var c4 := "jnr}" + rest;
    assert c4[0] == 'j' && c4[1] == 'n' && c4[2] == 'r' && c4[3] == '}' && |c4| >= 4;
  }

  /** A spec either leaves the indentation alone or sets it to a value of
      one or two decimal digits. */
  lemma ParseIndentRange(o: Options, ctx: seq<char>)
    ensures ParseSpec(o, ctx).0.indent == o.indent || 0 <= ParseSpec(o, ctx).0.indent <= 99
  {
  }

  /** `j` or `ji` followed by two digits sets the indentation to their
      decimal value; the spec must close right after them. */
  lemma ParseIndentDigits(o: Options, introduced: bool, hi: char, lo: char, rest: seq<char>)
    requires IsDigit(hi) && IsDigit(lo)
    ensures var p := if introduced then "ji" else "j";
      var ctx := p + [hi, lo] + rest;
      ParseSpec(o, ctx) == (o.(presentation := 'j', indent := DigitValue(hi) * 10 + DigitValue(lo)), Close(ctx, |p| + 2))
  {
    var p := if introduced then "ji" else "j";
    var ctx := p + [hi, lo] + rest;
    var i := |p|;
    assert ctx[0] == 'j' && ctx[i] == hi && ctx[i + 1] == lo;
    assert |ctx| == i + 2 + |rest|;
    assert introduced ==> ctx[1] == 'i';
  }

  /** `j` or `ji` followed by one digit and no second digit sets the
      indentation to that digit; the spec must close right after it. */
  lemma ParseIndentDigit(o: Options, introduced: bool, d: char, rest: seq<char>)
    requires IsDigit(d)
    requires rest == [] || !IsDigit(rest[0])
    ensures var p := if introduced then "ji" else "j";
      var ctx := p + [d] + rest;
      ParseSpec(o, ctx) == (o.(presentation := 'j', indent := DigitValue(d)), Close(ctx, |p| + 1))
  {
    var p := if introduced then "ji" else "j";
    var ctx := p + [d] + rest;
    var i := |p|;
    assert ctx[0] == 'j' && ctx[i] == d;
    assert |ctx| == i + 1 + |rest|;
    assert rest != [] ==> ctx[i + 1] == rest[0];
    assert introduced ==> ctx[1] == 'i';
  }

  /** A spec that starts with anything but a known letter or `}` is
      rejected, and so is a JSON spec that runs out without a brace. */
  lemma ParseRejects(o: Options, ctx: seq<char>)
    ensures ctx != [] && ctx[0] !in "ayj}" ==> ParseSpec(o, ctx).1 == FormatError
    ensures ParseSpec(o, "j").1 == FormatError && ParseSpec(o, "jn").1 == FormatError
    ensures ctx != [] && (forall k | 0 <= k < |ctx| :: ctx[k] != '}') ==> ParseSpec(o, ctx).1 == FormatError
  {
    if ParseSpec(o, ctx).1.Stop? {
      ParseStopsAtBrace(o, ctx);
    }
  }

  // ---------------------------------------------------------------------
  // Round trip

  /** The options one spec can produce from the defaults, in one form. */
  predicate Canonical(o: Options) {
    if o.presentation == 'a' || o.presentation == 'y' then o == Defaults.(presentation := o.presentation)
    else if o.presentation == 'j' then
      if o.ndjson then o.indent == 2
      else !o.removeSpaces && 0 <= o.indent <= 99
    else false
  }

  function DigitChar(d: int): (c: char)
    requires 0 <= d <= 9
    ensures IsDigit(c) && DigitValue(c) == d
  {
    ('0' as int + d) as char
  }

  /** The spec, without its closing brace, that selects `o`. */
  function Render(o: Options): seq<char>
    requires Canonical(o)
  {
    if o.presentation != 'j' then [o.presentation]
    else if o.ndjson then (if o.removeSpaces then "jnr" else "jn")
    else if o.indent < 10 then "ji" + [DigitChar(o.indent)]
    else "ji" + [DigitChar(o.indent / 10), DigitChar(o.indent % 10)]
  }

  /** Parsing the rendering of canonical options from the defaults yields
      those options, stopping at the closing brace. */
  lemma ParseRender(o: Options)
    requires Canonical(o)
    ensures ParseSpec(Defaults, Render(o) + "}") == (o, Stop(|Render(o)|))
  {
    var ctx := Render(o) + "}";
    if o.presentation != 'j' {
      assert ctx == [o.presentation, '}'];
    } else if o.ndjson {
      if o.removeSpaces {
        assert ctx == "jnr}";
      } else {
        assert ctx == "jn}";
      }
    } else if o.indent < 10 {
      assert ctx == ['j', 'i', DigitChar(o.indent), '}'];
    } else {
      assert ctx == ['j', 'i', DigitChar(o.indent / 10), DigitChar(o.indent % 10), '}'];
    }
  }
}
