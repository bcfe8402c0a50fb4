/**
 * What the emitted text says line by line: split at line feeds, every block
 * is the lines its definition calls for, in order, provided no name or
 * literal of the definition holds a line feed itself.
 */
module Lines {
  import opened Wrappers
  import opened Text
  import opened Schema
  import opened Guard
  import opened Lang

  /** A definition none of whose names, components or literals holds a line feed. */
  predicate SingleLineTexts(defn: Definition) {
    && '\n' !in defn.key
    && (forall k :: 0 <= k < |defn.values.Iter()| ==> '\n' !in defn.values.Iter()[k])
    && (defn.values.Literals? ==> forall k :: 0 <= k < |defn.values.literals| ==> '\n' !in defn.values.literals[k].1)
    && (forall k :: 0 <= k < |defn.composites| ==> '\n' !in defn.composites[k].0)
    && (forall k, c :: 0 <= k < |defn.composites| && 0 <= c < |defn.composites[k].1.components| ==>
          '\n' !in defn.composites[k].1.components[c])
  }

  predicate SingleLines(parts: seq<string>) {
    forall i :: 0 <= i < |parts| ==> '\n' !in parts[i]
  }

  lemma SingleLinesConcat(a: seq<string>, b: seq<string>)
    requires SingleLines(a) && SingleLines(b)
    ensures SingleLines(a + b)
  {
  }

  lemma NoLineFeedConcat(a: string, b: string)
    requires '\n' !in a && '\n' !in b
    ensures '\n' !in a + b
  {
  }

  /** Text joined from single lines and a final empty part splits back into them. */
  lemma LinesOf(parts: seq<string>)
    requires SingleLines(parts)
    ensures Split(Join(parts + [""], "\n"), '\n') == parts + [""]
  {
    SplitJoin(parts + [""], '\n');
  }

  /** `lines` is the lines of `a`, then of `b`, then of `c`, then an empty last piece. */
  predicate IsBlockSplit(lines: seq<string>, a: seq<string>, b: seq<string>, c: seq<string>) {
    && |lines| == |a| + |b| + |c| + 1
    && (forall k :: 0 <= k < |a| ==> lines[k] == a[k])
    && (forall k :: 0 <= k < |b| ==> lines[|a| + k] == b[k])
    && (forall k :: 0 <= k < |c| ==> lines[|a| + |b| + k] == c[k])
    && lines[|a| + |b| + |c|] == ""
  }

  lemma BlockParts(a: seq<string>, b: seq<string>, c: seq<string>)
    ensures IsBlockSplit(a + b + c + [""], a, b, c)
  {
    var s := a + b + c + [""];
    assert s == a + (b + (c + [""]));
    assert s == (a + b) + (c + [""]);
    assert s == (a + b + c) + [""];
  }

  /** A block of single lines splits at line feeds into exactly its lines and
      an empty last piece. */
  lemma BlockLines(a: seq<string>, b: seq<string>, c: seq<string>)
    requires SingleLines(a) && SingleLines(b) && SingleLines(c)
    ensures IsBlockSplit(Split(Block(a, b, c), '\n'), a, b, c)
  {
    SingleLinesConcat(a, b);
    SingleLinesConcat(a + b, c);
    LinesOf(a + b + c);
    BlockParts(a, b, c);
  }

  /** A line filled in from single-line pieces is a single line. */
  lemma PutSingleLine(t: Template, v: string, x: string)
    requires t.SingleLine() && '\n' !in v && '\n' !in x
    ensures '\n' !in t.Put(v, x)
  {
    NoLineFeedConcat(t.head, v);
    NoLineFeedConcat(t.head + v, t.mid);
    NoLineFeedConcat(t.head + v + t.mid, x);
    NoLineFeedConcat(t.head + v + t.mid + x, t.tail);
  }

  lemma ValueLinesSingle(t: Template, names: seq<string>, overrides: seq<(string, int)>)
    requires t.SingleLine()
    requires forall k :: 0 <= k < |names| ==> '\n' !in names[k]
    ensures SingleLines(ValueLines(t.Fill, names, overrides, |names|))
  {
    var lines := ValueLines(t.Fill, names, overrides, |names|);
    ValueLinesIndex(t.Fill, names, overrides, |names|);
    forall k | 0 <= k < |lines| ensures '\n' !in lines[k] {
      PutSingleLine(t, names[k], IntToString(EnumIndex(names, overrides, k)));
    }
  }

  lemma ShiftLinesSingle(t: Template, names: seq<string>)
    requires t.SingleLine() && |names| >= 1
    requires forall k :: 0 <= k < |names| ==> '\n' !in names[k]
    ensures SingleLines(ShiftLines(t, names))
  {
    var lines := ShiftLines(t, names);
    forall j | 0 <= j < |lines| ensures '\n' !in lines[j] {
      PutSingleLine(t, names[j + 1], IntToString(j));
    }
  }

  lemma AutoLinesSingle(names: seq<string>)
    requires |names| >= 1
    requires forall k :: 0 <= k < |names| ==> '\n' !in names[k]
    ensures SingleLines(AutoLines(names))
  {
    var lines := AutoLines(names);
    forall j | 0 <= j < |lines| ensures '\n' !in lines[j] {
      NoLineFeedConcat("    ", names[j + 1]);
      NoLineFeedConcat("    " + names[j + 1], " = enum.auto()");
    }
  }

  lemma CompositeLinesSingle(t: Template, composites: seq<(string, Composite)>, exprs: seq<string>)
    requires t.SingleLine() && |exprs| == |composites|
    requires forall k :: 0 <= k < |composites| ==> '\n' !in composites[k].0
    requires SingleLines(exprs)
    ensures SingleLines(CompositeLines(t, composites, exprs))
  {
    var lines := CompositeLines(t, composites, exprs);
    forall k | 0 <= k < |lines| ensures '\n' !in lines[k] {
      PutSingleLine(t, composites[k].0, exprs[k]);
    }
  }

  lemma LiteralLinesSingle(t: Template, literals: seq<(string, string)>)
    requires t.SingleLine()
    requires forall k :: 0 <= k < |literals| ==> '\n' !in literals[k].0 && '\n' !in literals[k].1
    ensures SingleLines(LiteralLines(t, literals))
  {
    var lines := LiteralLines(t, literals);
    forall k | 0 <= k < |lines| ensures '\n' !in lines[k] {
      PutSingleLine(t, literals[k].0, literals[k].1);
    }
  }

  /** The format strings the emitters use hold no line feed. */
  lemma TemplatesAreSingleLines()
    ensures Template("#define ", " ", "").SingleLine()
    ensures Template("    ", " = ", ",").SingleLine()
    ensures Template("#define ", " (1 << ", ")").SingleLine()
    ensures Template("#define ", " (", ")").SingleLine()
    ensures Template("    .equ ", ", ", "").SingleLine()
    ensures Template("    .equ ", ", (1 << ", ")").SingleLine()
    ensures Template("    .equ ", ", (", ")").SingleLine()
    ensures Template("    ", " = ", "").SingleLine()
  {
  }

  /** An alias block's names are its values' names. */
  lemma LiteralsSingle(defn: Definition)
    requires defn.values.Literals? && SingleLineTexts(defn)
    ensures var kv := defn.values.literals;
      forall k :: 0 <= k < |kv| ==> '\n' !in kv[k].0 && '\n' !in kv[k].1
  {
    var kv := defn.values.literals;
    forall k | 0 <= k < |kv| ensures '\n' !in kv[k].0 {
      assert kv[k].0 == defn.values.Iter()[k];
    }
  }

  lemma KeyLine(prefix: string, key: string, suffix: string)
    requires '\n' !in prefix && '\n' !in key && '\n' !in suffix
    ensures '\n' !in prefix + DropFirst(key) + suffix
  {
    NoLineFeedConcat(prefix, DropFirst(key));
    NoLineFeedConcat(prefix + DropFirst(key), suffix);
  }

  lemma AppendNothing(s: string)
    ensures s + "" == s
  {
  }

  /** The value lines of a block, read back from its split. */
  lemma ValueRows(lines: seq<string>, a: seq<string>, format: (string, int) -> string, names: seq<string>, overrides: seq<(string, int)>, c: seq<string>)
    requires IsBlockSplit(lines, a, ValueLines(format, names, overrides, |names|), c)
    ensures |ValueLines(format, names, overrides, |names|)| == |names|
    ensures forall k :: 0 <= k < |names| ==> lines[|a| + k] == format(names[k], EnumIndex(names, overrides, k))
  {
    ValueLinesIndex(format, names, overrides, |names|);
    var values := ValueLines(format, names, overrides, |names|);
    forall k | 0 <= k < |names|
      ensures lines[|a| + k] == format(names[k], EnumIndex(names, overrides, k))
    {
      assert lines[|a| + k] == values[k];
    }
  }

  /** The lines of an enum block: the lines `before`, then the line of each
      value with its running index, then the lines `after`, then an empty
      last piece. */
  predicate EnumBlockText(lines: seq<string>, before: seq<string>, format: (string, int) -> string, names: seq<string>, overrides: seq<(string, int)>, after: seq<string>) {
    && |lines| == |before| + |names| + |after| + 1
    && (forall k :: 0 <= k < |before| ==> lines[k] == before[k])
    && (forall k :: 0 <= k < |names| ==> lines[|before| + k] == format(names[k], EnumIndex(names, overrides, k)))
    && (forall k :: 0 <= k < |after| ==> lines[|before| + |names| + k] == after[k])
    && lines[|before| + |names| + |after|] == ""
  }

  /** The lines after a middle run of `n` lines, read back from a split. */
  lemma BlockTail(lines: seq<string>, a: seq<string>, b: seq<string>, c: seq<string>, n: nat)
    requires IsBlockSplit(lines, a, b, c) && |b| == n
    ensures |lines| == |a| + n + |c| + 1
    ensures forall k :: 0 <= k < |c| ==> lines[|a| + n + k] == c[k]
    ensures lines[|a| + n + |c|] == ""
  {
  }

  lemma EnumRows(lines: seq<string>, before: seq<string>, format: (string, int) -> string, names: seq<string>, overrides: seq<(string, int)>, after: seq<string>)
    requires IsBlockSplit(lines, before, ValueLines(format, names, overrides, |names|), after)
    ensures EnumBlockText(lines, before, format, names, overrides, after)
  {
    ValueRows(lines, before, format, names, overrides, after);
    BlockTail(lines, before, ValueLines(format, names, overrides, |names|), after, |names|);
  }

  /** An enum block: the prefix line (when given and not empty), then the
      line of each value with its index, then the suffix line. */
  lemma EnumTextLines(defn: Definition, t: Template, prefix: Option<string>, suffix: Option<string>)
    requires SingleLineTexts(defn) && t.SingleLine()
    requires prefix.Some? ==> '\n' !in prefix.value
    requires suffix.Some? ==> '\n' !in suffix.value
    ensures EnumBlockText(Split(EnumText(defn, t.Fill, prefix, suffix), '\n'), OptionalLine(prefix), t.Fill, defn.values.Iter(), defn.overrides, OptionalLine(suffix))
  {
    var names := defn.values.Iter();
    ValueLinesSingle(t, names, defn.overrides);
    var values := ValueLines(t.Fill, names, defn.overrides, |names|);
    BlockLines(OptionalLine(prefix), values, OptionalLine(suffix));
    EnumRows(Split(EnumText(defn, t.Fill, prefix, suffix), '\n'), OptionalLine(prefix), t.Fill, names, defn.overrides, OptionalLine(suffix));
  }

  /** A format string with nothing after its second field. */
  lemma PutUntailed(head: string, sep: string, v: string, x: string)
    ensures Template(head, sep, "").Put(v, x) == head + v + sep + x
  {
    AppendNothing(head + v + sep + x);
  }

  lemma UntailedRows(lines: seq<string>, head: string, sep: string, names: seq<string>, overrides: seq<(string, int)>)
    requires |names| <= |lines|
    requires forall k :: 0 <= k < |names| ==> lines[k] == Template(head, sep, "").Fill(names[k], EnumIndex(names, overrides, k))
    ensures forall k :: 0 <= k < |names| ==> lines[k] == head + names[k] + sep + IntToString(EnumIndex(names, overrides, k))
  {
    forall k | 0 <= k < |names|
      ensures lines[k] == head + names[k] + sep + IntToString(EnumIndex(names, overrides, k))
    {
      PutUntailed(head, sep, names[k], IntToString(EnumIndex(names, overrides, k)));
    }
  }

  /** The lines of a block of `{head}{v}{sep}{i}` lines, one per value. */
  lemma FlatValueRows(lines: seq<string>, head: string, sep: string, names: seq<string>, overrides: seq<(string, int)>)
    requires IsBlockSplit(lines, [], ValueLines(Template(head, sep, "").Fill, names, overrides, |names|), [])
    ensures |lines| == |names| + 1
    ensures forall k :: 0 <= k < |names| ==> lines[k] == head + names[k] + sep + IntToString(EnumIndex(names, overrides, k))
    ensures lines[|names|] == ""
  {
    ValueRows(lines, [], Template(head, sep, "").Fill, names, overrides, []);
    UntailedRows(lines, head, sep, names, overrides);
  }

  lemma CEnumValueRows(lines: seq<string>, a: seq<string>, names: seq<string>, overrides: seq<(string, int)>, c: seq<string>)
    requires |a| == 1
    requires IsBlockSplit(lines, a, ValueLines(Template("    ", " = ", ",").Fill, names, overrides, |names|), c)
    ensures |ValueLines(Template("    ", " = ", ",").Fill, names, overrides, |names|)| == |names|
    ensures forall k :: 0 <= k < |names| ==> lines[k + 1] == "    " + names[k] + " = " + IntToString(EnumIndex(names, overrides, k)) + ","
  {
    ValueRows(lines, a, Template("    ", " = ", ",").Fill, names, overrides, c);
    forall k | 0 <= k < |names|
      ensures lines[k + 1] == "    " + names[k] + " = " + IntToString(EnumIndex(names, overrides, k)) + ","
    {
      assert lines[|a| + k] == Template("    ", " = ", ",").Fill(names[k], EnumIndex(names, overrides, k));
    }
  }

  lemma CEnumRows(lines: seq<string>, head: string, names: seq<string>, overrides: seq<(string, int)>)
    requires IsBlockSplit(lines, [head], ValueLines(Template("    ", " = ", ",").Fill, names, overrides, |names|), ["};"])
    ensures |lines| == |names| + 3
    ensures lines[0] == head
    ensures forall k :: 0 <= k < |names| ==> lines[k + 1] == "    " + names[k] + " = " + IntToString(EnumIndex(names, overrides, k)) + ","
    ensures lines[|names| + 1] == "};" && lines[|names| + 2] == ""
  {
    var close := ["};"];
    CEnumValueRows(lines, [head], names, overrides, close);
    BlockTail(lines, [head], ValueLines(Template("    ", " = ", ",").Fill, names, overrides, |names|), close, |names|);
    assert lines[0] == [head][0];
    assert lines[1 + |names| + 0] == close[0];
    assert lines[1 + |names| + |close|] == "";
  }

  /** A C enum: `#define` lines when `as_preproc` is set, otherwise an `enum`
      block named after the key without its first character. */
  lemma CEnumLines(defn: Definition)
    requires defn.ctype == ENUM && SingleLineTexts(defn)
    ensures CContent(defn).Ok?
    ensures var names := defn.values.Iter();
      var lines := Split(CContent(defn).value, '\n');
      if defn.asPreproc then
        && |lines| == |names| + 1
        && (forall k :: 0 <= k < |names| ==> lines[k] == "#define " + names[k] + " " + IntToString(EnumIndex(names, defn.overrides, k)))
        && lines[|names|] == ""
      else
        && |lines| == |names| + 3
        && lines[0] == "enum " + DropFirst(defn.key) + " {"
        && (forall k :: 0 <= k < |names| ==> lines[k + 1] == "    " + names[k] + " = " + IntToString(EnumIndex(names, defn.overrides, k)) + ",")
        && lines[|names| + 1] == "};" && lines[|names| + 2] == ""
  {
    var names := defn.values.Iter();
    TemplatesAreSingleLines();
    if defn.asPreproc {
      var t := Template("#define ", " ", "");
      ValueLinesSingle(t, names, defn.overrides);
      var values := ValueLines(t.Fill, names, defn.overrides, |names|);
      assert CContent(defn) == Ok(Block([], values, []));
      BlockLines([], values, []);
      FlatValueRows(Split(Block([], values, []), '\n'), "#define ", " ", names, defn.overrides);
    } else {
      var t := Template("    ", " = ", ",");
      ValueLinesSingle(t, names, defn.overrides);
      var values := ValueLines(t.Fill, names, defn.overrides, |names|);
      var head := "enum " + DropFirst(defn.key) + " {";
      KeyLine("enum ", defn.key, " {");
      assert CContent(defn) == Ok(Block([head], values, ["};"]));
      BlockLines([head], values, ["};"]);
      CEnumRows(Split(Block([head], values, ["};"]), '\n'), head, names, defn.overrides);
    }
  }

  /** An assembler enum: one `.equ` line per value. */
  lemma AsmEnumLines(defn: Definition)
    requires defn.ctype == ENUM && SingleLineTexts(defn)
    ensures AsmContent(defn).Ok?
    ensures var names := defn.values.Iter();
      var lines := Split(AsmContent(defn).value, '\n');
      && |lines| == |names| + 1
      && (forall k :: 0 <= k < |names| ==> lines[k] == "    .equ " + names[k] + ", " + IntToString(EnumIndex(names, defn.overrides, k)))
      && lines[|names|] == ""
  {
    var names := defn.values.Iter();
    TemplatesAreSingleLines();
    var t := Template("    .equ ", ", ", "");
    ValueLinesSingle(t, names, defn.overrides);
    var values := ValueLines(t.Fill, names, defn.overrides, |names|);
    assert AsmContent(defn) == Ok(Block([], values, []));
    BlockLines([], values, []);
    FlatValueRows(Split(Block([], values, []), '\n'), "    .equ ", ", ", names, defn.overrides);
  }

  lemma PyEnumValueRows(lines: seq<string>, a: seq<string>, names: seq<string>, overrides: seq<(string, int)>, c: seq<string>)
    requires |a| == 1
    requires IsBlockSplit(lines, a, ValueLines(Template("    ", " = ", "").Fill, names, overrides, |names|), c)
    ensures |ValueLines(Template("    ", " = ", "").Fill, names, overrides, |names|)| == |names|
    ensures forall k :: 0 <= k < |names| ==> lines[k + 1] == "    " + names[k] + " = " + IntToString(EnumIndex(names, overrides, k))
  {
    ValueRows(lines, a, Template("    ", " = ", "").Fill, names, overrides, c);
    forall k | 0 <= k < |names|
      ensures lines[k + 1] == "    " + names[k] + " = " + IntToString(EnumIndex(names, overrides, k))
    {
      assert lines[|a| + k] == Template("    ", " = ", "").Fill(names[k], EnumIndex(names, overrides, k));
      AppendNothing("    " + names[k] + " = " + IntToString(EnumIndex(names, overrides, k)));
    }
  }

  lemma PyEnumRows(lines: seq<string>, head: string, names: seq<string>, overrides: seq<(string, int)>)
    requires IsBlockSplit(lines, [head], ValueLines(Template("    ", " = ", "").Fill, names, overrides, |names|), [])
    ensures |lines| == |names| + 2
    ensures lines[0] == head
    ensures forall k :: 0 <= k < |names| ==> lines[k + 1] == "    " + names[k] + " = " + IntToString(EnumIndex(names, overrides, k))
    ensures lines[|names| + 1] == ""
  {
    PyEnumValueRows(lines, [head], names, overrides, []);
    BlockTail(lines, [head], ValueLines(Template("    ", " = ", "").Fill, names, overrides, |names|), [], |names|);
    assert lines[0] == [head][0];
  }

  /** A Python enum's text is the block of its class line and value lines. */
  lemma PyEnumBlock(defn: Definition)
    requires defn.ctype == ENUM && SingleLineTexts(defn)
    ensures PyContent(defn).Ok?
    ensures IsBlockSplit(Split(PyContent(defn).value, '\n'), ["class " + DropFirst(defn.key) + "(enum.Enum):"],
      ValueLines(Template("    ", " = ", "").Fill, defn.values.Iter(), defn.overrides, |defn.values.Iter()|), [])
  {
    var names := defn.values.Iter();
    TemplatesAreSingleLines();
    var t := Template("    ", " = ", "");
    ValueLinesSingle(t, names, defn.overrides);
    var values := ValueLines(t.Fill, names, defn.overrides, |names|);
    var head := "class " + DropFirst(defn.key) + "(enum.Enum):";
    KeyLine("class ", defn.key, "(enum.Enum):");
    assert PyContent(defn) == Ok(Block([head], values, []));
    BlockLines([head], values, []);
  }

  /** A Python enum: an `enum.Enum` class with one member per value. */
  lemma PyEnumLines(defn: Definition)
    requires defn.ctype == ENUM && SingleLineTexts(defn)
    ensures PyContent(defn).Ok?
    ensures var names := defn.values.Iter();
      var lines := Split(PyContent(defn).value, '\n');
      && |lines| == |names| + 2
      && lines[0] == "class " + DropFirst(defn.key) + "(enum.Enum):"
      && (forall k :: 0 <= k < |names| ==> lines[k + 1] == "    " + names[k] + " = " + IntToString(EnumIndex(names, defn.overrides, k)))
      && lines[|names| + 1] == ""
  {
    PyEnumBlock(defn);
    PyEnumRows(Split(PyContent(defn).value, '\n'), "class " + DropFirst(defn.key) + "(enum.Enum):", defn.values.Iter(), defn.overrides);
  }

  /** The definitions every FLAGS line lemma is about: a non-empty list of
      values and only OR composites, all on single lines. */
  predicate RenderableFlags(defn: Definition) {
    && defn.ctype == FLAGS && defn.values.Names? && |defn.values.names| >= 1
    && (forall k :: 0 <= k < |defn.composites| ==> Upper(defn.composites[k].1.op) == "OR")
    && SingleLineTexts(defn)
  }

  lemma ExpressionsAreSingleLines(defn: Definition, lang: Language)
    requires RenderableFlags(defn)
    ensures ComposeAll(defn.composites, lang).Ok?
    ensures SingleLines(ComposeAll(defn.composites, lang).value)
  {
    var exprs := ComposeAll(defn.composites, lang).value;
    forall k | 0 <= k < |exprs| ensures '\n' !in exprs[k] {
      if '\n' in exprs[k] {
        JoinChars(defn.composites[k].1.components, OrToken(lang), '\n');
      }
    }
  }

  /** The pieces of a FLAGS block, all single lines. */
  lemma FlagsPiecesSingle(defn: Definition, lang: Language, shift: Template, comp: Template)
    requires RenderableFlags(defn) && shift.SingleLine() && comp.SingleLine()
    ensures ComposeAll(defn.composites, lang).Ok?
    ensures SingleLines(ShiftLines(shift, defn.values.names))
    ensures SingleLines(AutoLines(defn.values.names))
    ensures SingleLines(CompositeLines(comp, defn.composites, ComposeAll(defn.composites, lang).value))
  {
    var names := defn.values.names;
    assert forall k :: 0 <= k < |names| ==> '\n' !in names[k] by {
      assert names == defn.values.Iter();
    }
    ExpressionsAreSingleLines(defn, lang);
    ShiftLinesSingle(shift, names);
    AutoLinesSingle(names);
    CompositeLinesSingle(comp, defn.composites, ComposeAll(defn.composites, lang).value);
  }

  /** The lines of a C FLAGS block of values `names` and composites `cs`:
      the first value is 0, the value at position `j >= 1` is bit `j - 1`,
      the composites follow, each the `|` of its components, and the block
      ends with a line feed. */
  predicate CFlagsText(lines: seq<string>, names: seq<string>, cs: seq<(string, Composite)>) {
    && |names| >= 1
    && |lines| == |names| + |cs| + 1
    && lines[0] == "#define " + names[0] + " 0"
    && (forall j :: 1 <= j < |names| ==> lines[j] == "#define " + names[j] + " (1 << " + IntToString(j - 1) + ")")
    && (forall k :: 0 <= k < |cs| ==> lines[|names| + k] == "#define " + cs[k].0 + " (" + Join(cs[k].1.components, "|") + ")")
    && lines[|names| + |cs|] == ""
  }

  /** The bit lines of a FLAGS block, `{head}{v}{mid}{j - 1})` for the value
      at position `j >= 1`, read back from its split. */
  lemma ShiftRows(lines: seq<string>, a: seq<string>, head: string, mid: string, names: seq<string>, c: seq<string>)
    requires |names| >= 1 && |a| == 1
    requires IsBlockSplit(lines, a, ShiftLines(Template(head, mid, ")"), names), c)
    ensures forall j :: 1 <= j < |names| ==> lines[j] == head + names[j] + mid + IntToString(j - 1) + ")"
  {
    var shifts := ShiftLines(Template(head, mid, ")"), names);
    forall j | 1 <= j < |names|
      ensures lines[j] == head + names[j] + mid + IntToString(j - 1) + ")"
    {
      assert lines[|a| + (j - 1)] == shifts[j - 1];
    }
  }

  /** The composite lines of a FLAGS block, `{head}{name}{mid}{expr})` with
      each expression the `|` of its components, read back from its split. */
  lemma CompositeRows(lines: seq<string>, a: seq<string>, b: seq<string>, head: string, mid: string, cs: seq<(string, Composite)>, exprs: seq<string>, n: nat)
    requires |exprs| == |cs| && n == |a| + |b|
    requires forall k :: 0 <= k < |cs| ==> exprs[k] == Join(cs[k].1.components, OrToken(C))
    requires IsBlockSplit(lines, a, b, CompositeLines(Template(head, mid, ")"), cs, exprs))
    ensures forall k :: 0 <= k < |cs| ==> lines[n + k] == head + cs[k].0 + mid + Join(cs[k].1.components, "|") + ")"
  {
    var comps := CompositeLines(Template(head, mid, ")"), cs, exprs);
    forall k | 0 <= k < |cs|
      ensures lines[n + k] == head + cs[k].0 + mid + Join(cs[k].1.components, "|") + ")"
    {
      assert lines[|a| + |b| + k] == comps[k];
    }
  }

  lemma CFlagsRows(lines: seq<string>, names: seq<string>, cs: seq<(string, Composite)>, exprs: seq<string>)
    requires |names| >= 1 && |exprs| == |cs|
    requires forall k :: 0 <= k < |cs| ==> exprs[k] == Join(cs[k].1.components, OrToken(C))
    requires IsBlockSplit(lines, ["#define " + names[0] + " 0"], ShiftLines(Template("#define ", " (1 << ", ")"), names), CompositeLines(Template("#define ", " (", ")"), cs, exprs))
    ensures CFlagsText(lines, names, cs)
  {
    var head := ["#define " + names[0] + " 0"];
    var shifts := ShiftLines(Template("#define ", " (1 << ", ")"), names);
    assert lines[0] == head[0];
    ShiftRows(lines, head, "#define ", " (1 << ", names, CompositeLines(Template("#define ", " (", ")"), cs, exprs));
    CompositeRows(lines, head, shifts, "#define ", " (", cs, exprs, |names|);
  }

  /** A C FLAGS block: the first value is 0, the value at position `j >= 1` is
      bit `j - 1`, and the composites follow, each the `|` of its components. */
  lemma CFlagsBlock(defn: Definition)
    requires RenderableFlags(defn)
    ensures CContent(defn).Ok? && ComposeAll(defn.composites, C).Ok?
    ensures var names := defn.values.names;
      IsBlockSplit(Split(CContent(defn).value, '\n'), ["#define " + names[0] + " 0"],
        ShiftLines(Template("#define ", " (1 << ", ")"), names), CompositeLines(Template("#define ", " (", ")"), defn.composites, ComposeAll(defn.composites, C).value))
  {
    var names := defn.values.names;
    var shift := Template("#define ", " (1 << ", ")");
    var comp := Template("#define ", " (", ")");
    TemplatesAreSingleLines();
    FlagsPiecesSingle(defn, C, shift, comp);
    var exprs := ComposeAll(defn.composites, C).value;
    var head := ["#define " + names[0] + " 0"];
    assert '\n' !in names[0] by {
      assert names == defn.values.Iter();
    }
    NoLineFeedConcat("#define " + names[0], " 0");
    var shifts := ShiftLines(shift, names);
    var comps := CompositeLines(comp, defn.composites, exprs);
    assert CContent(defn) == Ok(Block(head, shifts, comps));
    BlockLines(head, shifts, comps);
  }
  lemma CFlagsLines(defn: Definition)
    requires RenderableFlags(defn)
    ensures CContent(defn).Ok?
    ensures CFlagsText(Split(CContent(defn).value, '\n'), defn.values.names, defn.composites)
  {
    CFlagsBlock(defn);
    CFlagsRows(Split(CContent(defn).value, '\n'), defn.values.names, defn.composites, ComposeAll(defn.composites, C).value);
  }


  /** The lines of an assembler FLAGS block: as in C, with `.equ` lines. */
  predicate AsmFlagsText(lines: seq<string>, names: seq<string>, cs: seq<(string, Composite)>) {
    && |names| >= 1
    && |lines| == |names| + |cs| + 1
    && lines[0] == "    .equ " + names[0] + ", 0"
    && (forall j :: 1 <= j < |names| ==> lines[j] == "    .equ " + names[j] + ", (1 << " + IntToString(j - 1) + ")")
    && (forall k :: 0 <= k < |cs| ==> lines[|names| + k] == "    .equ " + cs[k].0 + ", (" + Join(cs[k].1.components, "|") + ")")
    && lines[|names| + |cs|] == ""
  }

  lemma AsmFlagsRows(lines: seq<string>, names: seq<string>, cs: seq<(string, Composite)>, exprs: seq<string>)
    requires |names| >= 1 && |exprs| == |cs|
    requires forall k :: 0 <= k < |cs| ==> exprs[k] == Join(cs[k].1.components, OrToken(C))
    requires IsBlockSplit(lines, ["    .equ " + names[0] + ", 0"], ShiftLines(Template("    .equ ", ", (1 << ", ")"), names), CompositeLines(Template("    .equ ", ", (", ")"), cs, exprs))
    ensures AsmFlagsText(lines, names, cs)
  {
    var head := ["    .equ " + names[0] + ", 0"];
    var shifts := ShiftLines(Template("    .equ ", ", (1 << ", ")"), names);
    assert lines[0] == head[0];
    ShiftRows(lines, head, "    .equ ", ", (1 << ", names, CompositeLines(Template("    .equ ", ", (", ")"), cs, exprs));
    CompositeRows(lines, head, shifts, "    .equ ", ", (", cs, exprs, |names|);
  }

  /** An assembler FLAGS block: as in C, with `.equ` lines; the composites
      are composed with the C token `|`. */
  lemma AsmFlagsBlock(defn: Definition)
    requires RenderableFlags(defn)
    ensures AsmContent(defn).Ok? && ComposeAll(defn.composites, C).Ok?
    ensures var names := defn.values.names;
      IsBlockSplit(Split(AsmContent(defn).value, '\n'), ["    .equ " + names[0] + ", 0"],
        ShiftLines(Template("    .equ ", ", (1 << ", ")"), names), CompositeLines(Template("    .equ ", ", (", ")"), defn.composites, ComposeAll(defn.composites, C).value))
  {
    var names := defn.values.names;
    var shift := Template("    .equ ", ", (1 << ", ")");
    var comp := Template("    .equ ", ", (", ")");
    TemplatesAreSingleLines();
    FlagsPiecesSingle(defn, C, shift, comp);
    var exprs := ComposeAll(defn.composites, C).value;
    var head := ["    .equ " + names[0] + ", 0"];
    assert '\n' !in names[0] by {
      assert names == defn.values.Iter();
    }
    NoLineFeedConcat("    .equ " + names[0], ", 0");
    var shifts := ShiftLines(shift, names);
    var comps := CompositeLines(comp, defn.composites, exprs);
    assert AsmContent(defn) == Ok(Block(head, shifts, comps));
    BlockLines(head, shifts, comps);
  }
  lemma AsmFlagsLines(defn: Definition)
    requires RenderableFlags(defn)
    ensures AsmContent(defn).Ok?
    ensures AsmFlagsText(Split(AsmContent(defn).value, '\n'), defn.values.names, defn.composites)
  {
    AsmFlagsBlock(defn);
    AsmFlagsRows(Split(AsmContent(defn).value, '\n'), defn.values.names, defn.composites, ComposeAll(defn.composites, C).value);
  }


  /** The lines of a Python FLAGS block: the class line `cls`, the first
      value as 0, the other values as `enum.auto()` in order, then the
      composites, each the `|` of its components. */
  predicate PyFlagsText(lines: seq<string>, cls: string, names: seq<string>, cs: seq<(string, Composite)>) {
    && |names| >= 1
    && |lines| == |names| + |cs| + 2
    && lines[0] == cls
    && lines[1] == "    " + names[0] + " = 0"
    && (forall j :: 1 <= j < |names| ==> lines[j + 1] == "    " + names[j] + " = enum.auto()")
    && (forall k :: 0 <= k < |cs| ==> lines[|names| + 1 + k] == "    " + cs[k].0 + " = " + Join(cs[k].1.components, "|"))
    && lines[|names| + |cs| + 1] == ""
  }

  lemma PyAutoRows(lines: seq<string>, a: seq<string>, names: seq<string>, c: seq<string>)
    requires |names| >= 1 && |a| == 2
    requires IsBlockSplit(lines, a, AutoLines(names), c)
    ensures forall j :: 1 <= j < |names| ==> lines[j + 1] == "    " + names[j] + " = enum.auto()"
  {
    var autos := AutoLines(names);
    forall j | 1 <= j < |names|
      ensures lines[j + 1] == "    " + names[j] + " = enum.auto()"
    {
      assert lines[|a| + (j - 1)] == autos[j - 1];
    }
  }

  lemma PyCompositeRows(lines: seq<string>, a: seq<string>, b: seq<string>, cs: seq<(string, Composite)>, exprs: seq<string>, n: nat)
    requires |exprs| == |cs| && n == |a| + |b|
    requires forall k :: 0 <= k < |cs| ==> exprs[k] == Join(cs[k].1.components, OrToken(PY))
    requires IsBlockSplit(lines, a, b, CompositeLines(Template("    ", " = ", ""), cs, exprs))
    ensures forall k :: 0 <= k < |cs| ==> lines[n + k] == "    " + cs[k].0 + " = " + Join(cs[k].1.components, "|")
  {
    var comps := CompositeLines(Template("    ", " = ", ""), cs, exprs);
    forall k | 0 <= k < |cs|
      ensures lines[n + k] == "    " + cs[k].0 + " = " + Join(cs[k].1.components, "|")
    {
      assert lines[|a| + |b| + k] == comps[k];
      AppendNothing("    " + cs[k].0 + " = " + Join(cs[k].1.components, "|"));
    }
  }

  lemma PyFlagsRows(lines: seq<string>, cls: string, names: seq<string>, cs: seq<(string, Composite)>, exprs: seq<string>)
    requires |names| >= 1 && |exprs| == |cs|
    requires forall k :: 0 <= k < |cs| ==> exprs[k] == Join(cs[k].1.components, OrToken(PY))
    requires IsBlockSplit(lines, [cls, "    " + names[0] + " = 0"], AutoLines(names), CompositeLines(Template("    ", " = ", ""), cs, exprs))
    ensures PyFlagsText(lines, cls, names, cs)
  {
    var head := [cls, "    " + names[0] + " = 0"];
    var autos := AutoLines(names);
    assert lines[0] == head[0] && lines[1] == head[1];
    PyAutoRows(lines, head, names, CompositeLines(Template("    ", " = ", ""), cs, exprs));
    PyCompositeRows(lines, head, autos, cs, exprs, |names| + 1);
  }

  /** A Python FLAGS block: an `enum.IntFlag` class whose first member is 0,
      whose other members are `enum.auto()`, and whose composites follow. */
  lemma PyFlagsBlock(defn: Definition)
    requires RenderableFlags(defn)
    ensures PyContent(defn).Ok? && ComposeAll(defn.composites, PY).Ok?
    ensures var names := defn.values.names;
      IsBlockSplit(Split(PyContent(defn).value, '\n'), ["class " + DropFirst(defn.key) + "(enum.IntFlag):", "    " + names[0] + " = 0"],
        AutoLines(names), CompositeLines(Template("    ", " = ", ""), defn.composites, ComposeAll(defn.composites, PY).value))
  {
    var names := defn.values.names;
    var comp := Template("    ", " = ", "");
    TemplatesAreSingleLines();
    FlagsPiecesSingle(defn, PY, comp, comp);
    var exprs := ComposeAll(defn.composites, PY).value;
    var cls := "class " + DropFirst(defn.key) + "(enum.IntFlag):";
    KeyLine("class ", defn.key, "(enum.IntFlag):");
    assert '\n' !in names[0] by {
      assert names == defn.values.Iter();
    }
    NoLineFeedConcat("    ", names[0]);
    NoLineFeedConcat("    " + names[0], " = 0");
    var head := [cls, "    " + names[0] + " = 0"];
    var autos := AutoLines(names);
    var comps := CompositeLines(comp, defn.composites, exprs);
    assert PyContent(defn) == Ok(Block(head, autos, comps));
    BlockLines(head, autos, comps);
  }
  lemma PyFlagsLines(defn: Definition)
    requires RenderableFlags(defn)
    ensures PyContent(defn).Ok?
    ensures PyFlagsText(Split(PyContent(defn).value, '\n'), "class " + DropFirst(defn.key) + "(enum.IntFlag):", defn.values.names, defn.composites)
  {
    PyFlagsBlock(defn);
    PyFlagsRows(Split(PyContent(defn).value, '\n'), "class " + DropFirst(defn.key) + "(enum.IntFlag):", defn.values.names, defn.composites, ComposeAll(defn.composites, PY).value);
  }


  lemma AliasRows(lines: seq<string>, a: seq<string>, t: Template, kv: seq<(string, string)>, c: seq<string>)
    requires IsBlockSplit(lines, a, LiteralLines(t, kv), c)
    ensures forall k :: 0 <= k < |kv| ==> lines[|a| + k] == t.Put(kv[k].0, kv[k].1)
  {
    var lits := LiteralLines(t, kv);
    forall k | 0 <= k < |kv|
      ensures lines[|a| + k] == t.Put(kv[k].0, kv[k].1)
    {
      assert lines[|a| + k] == lits[k];
    }
  }

  /** The lines of a block of `{head}{k}{sep}{v}` lines, one per alias. */
  lemma FlatAliasRows(lines: seq<string>, head: string, sep: string, kv: seq<(string, string)>)
    requires IsBlockSplit(lines, [], LiteralLines(Template(head, sep, ""), kv), [])
    ensures |lines| == |kv| + 1
    ensures forall k :: 0 <= k < |kv| ==> lines[k] == head + kv[k].0 + sep + kv[k].1
    ensures lines[|kv|] == ""
  {
    var none: seq<string> := [];
    AliasRows(lines, none, Template(head, sep, ""), kv, none);
    forall k | 0 <= k < |kv|
      ensures lines[k] == head + kv[k].0 + sep + kv[k].1
    {
      assert lines[|none| + k] == Template(head, sep, "").Put(kv[k].0, kv[k].1);
      PutUntailed(head, sep, kv[k].0, kv[k].1);
    }
  }

  lemma CEnumAliasRows(lines: seq<string>, head: string, kv: seq<(string, string)>)
    requires IsBlockSplit(lines, [head], LiteralLines(Template("    ", " = ", ","), kv), ["};"])
    ensures |lines| == |kv| + 3
    ensures lines[0] == head
    ensures forall k :: 0 <= k < |kv| ==> lines[k + 1] == "    " + kv[k].0 + " = " + kv[k].1 + ","
    ensures lines[|kv| + 1] == "};" && lines[|kv| + 2] == ""
  {
    assert lines[0] == [head][0];
    AliasRows(lines, [head], Template("    ", " = ", ","), kv, ["};"]);
    forall k | 0 <= k < |kv|
      ensures lines[k + 1] == "    " + kv[k].0 + " = " + kv[k].1 + ","
    {
      assert lines[|[head]| + k] == Template("    ", " = ", ",").Put(kv[k].0, kv[k].1);
    }
    assert lines[|[head]| + |LiteralLines(Template("    ", " = ", ","), kv)| + 0] == ["};"][0];
  }

  /** `"};\n"` as the last part of a join is the line `};` and a final line feed. */
  lemma ClosedBlock(parts: seq<string>, lits: seq<string>)
    requires parts != []
    ensures Join(parts + lits + ["};\n"], "\n") == Block(parts, lits, ["};"])
  {
    var xs := parts + lits;
    JoinSnoc(xs, "\n", "};\n");
    JoinSnoc(xs, "\n", "};");
    JoinSnoc(xs + ["};"], "\n", "");
    assert xs + ["};"] + [""] == parts + lits + ["};"] + [""];
  }

  /** A C ALIASES block: each alias with its literal unchanged, as `#define`
      lines or as members of an `enum` block closed by `};`; either way the
      text then ends with a line feed. */
  lemma CAliasesLines(defn: Definition)
    requires defn.ctype == ALIASES && defn.values.Literals? && SingleLineTexts(defn)
    ensures CContent(defn).Ok?
    ensures var kv := defn.values.literals;
      var lines := Split(CContent(defn).value, '\n');
      if defn.asPreproc then
        && |lines| == |kv| + 1
        && (forall k :: 0 <= k < |kv| ==> lines[k] == "#define " + kv[k].0 + " " + kv[k].1)
        && lines[|kv|] == ""
      else
        && |lines| == |kv| + 3
        && lines[0] == "enum " + DropFirst(defn.key) + " {"
        && (forall k :: 0 <= k < |kv| ==> lines[k + 1] == "    " + kv[k].0 + " = " + kv[k].1 + ",")
        && lines[|kv| + 1] == "};" && lines[|kv| + 2] == ""
  {
    var kv := defn.values.literals;
    TemplatesAreSingleLines();
    LiteralsSingle(defn);
    if defn.asPreproc {
      var lits := LiteralLines(Template("#define ", " ", ""), kv);
      LiteralLinesSingle(Template("#define ", " ", ""), kv);
      assert [] + lits + [] + [""] == lits + [""];
      assert CContent(defn) == Ok(Block([], lits, []));
      BlockLines([], lits, []);
      FlatAliasRows(Split(Block([], lits, []), '\n'), "#define ", " ", kv);
    } else {
      var lits := LiteralLines(Template("    ", " = ", ","), kv);
      LiteralLinesSingle(Template("    ", " = ", ","), kv);
      var head := "enum " + DropFirst(defn.key) + " {";
      KeyLine("enum ", defn.key, " {");
      ClosedBlock([head], lits);
      assert CContent(defn) == Ok(Block([head], lits, ["};"]));
      BlockLines([head], lits, ["};"]);
      CEnumAliasRows(Split(Block([head], lits, ["};"]), '\n'), head, kv);
    }
  }

  /** An assembler ALIASES block: one `.equ` line per alias. */
  lemma AsmAliasesLines(defn: Definition)
    requires defn.ctype == ALIASES && defn.values.Literals? && SingleLineTexts(defn)
    ensures AsmContent(defn).Ok?
    ensures var kv := defn.values.literals;
      var lines := Split(AsmContent(defn).value, '\n');
      && |lines| == |kv| + 1
      && (forall k :: 0 <= k < |kv| ==> lines[k] == "    .equ " + kv[k].0 + ", " + kv[k].1)
      && lines[|kv|] == ""
  {
    var kv := defn.values.literals;
    TemplatesAreSingleLines();
    LiteralsSingle(defn);
    var lits := LiteralLines(Template("    .equ ", ", ", ""), kv);
    LiteralLinesSingle(Template("    .equ ", ", ", ""), kv);
    assert [] + lits + [] + [""] == lits + [""];
    assert AsmContent(defn) == Ok(Block([], lits, []));
    BlockLines([], lits, []);
    FlatAliasRows(Split(Block([], lits, []), '\n'), "    .equ ", ", ", kv);
  }

  lemma PyAliasRows(lines: seq<string>, head: string, kv: seq<(string, string)>)
    requires IsBlockSplit(lines, [head], LiteralLines(Template("    ", " = ", ""), kv), [])
    ensures |lines| == |kv| + 2
    ensures lines[0] == head
    ensures forall k :: 0 <= k < |kv| ==> lines[k + 1] == "    " + kv[k].0 + " = " + kv[k].1
    ensures lines[|kv| + 1] == ""
  {
    assert lines[0] == [head][0];
    AliasRows(lines, [head], Template("    ", " = ", ""), kv, []);
    forall k | 0 <= k < |kv|
      ensures lines[k + 1] == "    " + kv[k].0 + " = " + kv[k].1
    {
      assert lines[|[head]| + k] == Template("    ", " = ", "").Put(kv[k].0, kv[k].1);
      AppendNothing("    " + kv[k].0 + " = " + kv[k].1);
    }
  }

  /** A Python ALIASES block: an `enum.Enum` class with one member per alias. */
  lemma PyAliasesLines(defn: Definition)
    requires defn.ctype == ALIASES && defn.values.Literals? && SingleLineTexts(defn)
    ensures PyContent(defn).Ok?
    ensures var kv := defn.values.literals;
      var lines := Split(PyContent(defn).value, '\n');
      && |lines| == |kv| + 2
      && lines[0] == "class " + DropFirst(defn.key) + "(enum.Enum):"
      && (forall k :: 0 <= k < |kv| ==> lines[k + 1] == "    " + kv[k].0 + " = " + kv[k].1)
      && lines[|kv| + 1] == ""
  {
    var kv := defn.values.literals;
    TemplatesAreSingleLines();
    LiteralsSingle(defn);
    var lits := LiteralLines(Template("    ", " = ", ""), kv);
    LiteralLinesSingle(Template("    ", " = ", ""), kv);
    var head := "class " + DropFirst(defn.key) + "(enum.Enum):";
    KeyLine("class ", defn.key, "(enum.Enum):");
    assert [head] + lits + [] + [""] == [head] + lits + [""];
    assert PyContent(defn) == Ok(Block([head], lits, []));
    BlockLines([head], lits, []);
    PyAliasRows(Split(Block([head], lits, []), '\n'), head, kv);
  }

  /** The banner and the origin line of every header are single lines. */
  lemma BannerLines(origin: string)
    requires '\n' !in origin
    ensures '\n' !in GeneratedBanner
    ensures '\n' !in OriginFileBanner(origin)
  {
    NoLineFeedConcat("THIS FILE WAS ", "GENERATED WITH ");
    NoLineFeedConcat("THIS FILE WAS " + "GENERATED WITH ", "CONSTGEN; DO NOT ");
    NoLineFeedConcat("THIS FILE WAS " + "GENERATED WITH " + "CONSTGEN; DO NOT ", "MANUALLY MODIFY IT");
    NoLineFeedConcat("CONSTANTS ORIGIN FILE: ", origin);
  }

  /** A header's lines, all single lines, split back from their join. */
  lemma HeaderSplit(a: string, b: string, c: string, d: string)
    requires '\n' !in a && '\n' !in b && '\n' !in c && '\n' !in d
    ensures Split(Join([a, b, "", c, d, ""], "\n"), '\n') == [a, b, "", c, d, ""]
  {
    SplitJoin([a, b, "", c, d, ""], '\n');
  }

  /** The C header: the banner and the origin file as comments, then the
      include guard `<guard>_H` tested and defined; `#endif` closes it. */
  lemma CHeaderLines(target: string, origin: string)
    requires '\n' !in origin
    ensures var g := FileGuard(target) + "_H";
      var lines := Split(Header(C, target, origin), '\n');
      && |lines| == 6
      && lines[0] == "// " + GeneratedBanner
      && lines[1] == "// " + OriginFileBanner(origin)
      && lines[2] == "" && lines[3] == "#ifndef " + g && lines[4] == "#define " + g
      && lines[5] == ""
      && Footer(C, target) == "#endif"
  {
    var g := FileGuard(target) + "_H";
    BannerLines(origin);
    NoLineFeedConcat("// ", GeneratedBanner);
    NoLineFeedConcat("// ", OriginFileBanner(origin));
    NoLineFeedConcat(FileGuard(target), "_H");
    NoLineFeedConcat("#ifndef ", g);
    NoLineFeedConcat("#define ", g);
    HeaderSplit("// " + GeneratedBanner, "// " + OriginFileBanner(origin), "#ifndef " + g, "#define " + g);
  }

  /** The assembler header: the banner and origin as `;` comments, then
      `<guard>_INC` tested and set to 1; `.endif` closes it. */
  lemma AsmHeaderLines(target: string, origin: string)
    requires '\n' !in origin
    ensures var g := FileGuard(target) + "_INC";
      var lines := Split(Header(ASM, target, origin), '\n');
      && |lines| == 6
      && lines[0] == "; " + GeneratedBanner
      && lines[1] == "; " + OriginFileBanner(origin)
      && lines[2] == "" && lines[3] == "    .ifndef " + g && lines[4] == "    .set " + g + ", 1"
      && lines[5] == ""
      && Footer(ASM, target) == "    .endif"
  {
    var g := FileGuard(target) + "_INC";
    BannerLines(origin);
    NoLineFeedConcat("; ", GeneratedBanner);
    NoLineFeedConcat("; ", OriginFileBanner(origin));
    NoLineFeedConcat(FileGuard(target), "_INC");
    NoLineFeedConcat("    .ifndef ", g);
    NoLineFeedConcat("    .set ", g);
    NoLineFeedConcat("    .set " + g, ", 1");
    HeaderSplit("; " + GeneratedBanner, "; " + OriginFileBanner(origin), "    .ifndef " + g, "    .set " + g + ", 1");
  }

  /** The Python header: the banner and origin as `#` comments and the
      `import enum` every emitted class relies on; the footer is empty. */
  lemma PyHeaderLines(target: string, origin: string)
    requires '\n' !in origin
    ensures var lines := Split(Header(PY, target, origin), '\n');
      && |lines| == 5
      && lines[0] == "# " + GeneratedBanner
      && lines[1] == "# " + OriginFileBanner(origin)
      && lines[2] == "" && lines[3] == "import enum" && lines[4] == ""
      && Footer(PY, target) == ""
  {
    BannerLines(origin);
    NoLineFeedConcat("# ", GeneratedBanner);
    NoLineFeedConcat("# ", OriginFileBanner(origin));
    SplitJoin(["# " + GeneratedBanner, "# " + OriginFileBanner(origin), "", "import enum", ""], '\n');
  }
}
