/**
 * The per-language emitters: the header and footer that wrap a generated
 * file, and the text each definition becomes in a C header, an assembler
 * include or a Python module.
 */
module Lang {
  import opened Wrappers
  import opened Text
  import opened Dict
  import opened Schema
  import opened Guard

  /** `GENERATED_BANNER`, written in pieces so that each piece is short. */
  const GeneratedBanner: string := "THIS FILE WAS " + "GENERATED WITH " + "CONSTGEN; DO NOT " + "MANUALLY MODIFY IT"

  function OriginFileBanner(origin: string): string {
    "CONSTANTS ORIGIN FILE: " + origin
  }

  datatype Language = C | ASM | PY

  function LanguageValue(lang: Language): nat {
    match lang
    case C => 0
    case ASM => 1
    case PY => 2
  }

  /** `LANG_COMPOSE_OPS`: for each language (row) and composition op (column),
      the token written between the components of a composite. */
  const LangComposeOps: seq<seq<string>> := [["", "|"], ["", ""], ["", "|"]]

  /** The token a language writes a bitwise OR with: none in the assembly row,
      `|` otherwise. */
  function OrToken(lang: Language): string {
    if lang == ASM then "" else "|"
  }

  /** `_compose(components, op, lang)`: the op name is looked up upper-cased;
      OR joins the components with the language's token, NONE is refused. */
  function Compose(components: seq<string>, op: string, lang: Language): (r: Result<string>)
    ensures r.Ok? <==> Upper(op) == "OR"
    ensures r.Ok? ==> r.value == Join(components, OrToken(lang))
    ensures Upper(op) == "NONE" ==> r == Err(ValueError)
    ensures Upper(op) != "OR" && Upper(op) != "NONE" ==> r == Err(KeyError(Upper(op)))
  {
    assert CompositionOpName(CompositionOp.OR) == "OR";
    var o :- CompositionOpNamed(Upper(op));
    match o
    case OR => Ok(Join(components, LangComposeOps[LanguageValue(lang)][CompositionOpValue(CompositionOp.OR)]))
    case NONE => Err(ValueError)
  }

  /** The expressions of `composites` in order, as the emitters' comprehensions
      build them, or the error of the first composite that cannot be composed. */
  function ComposeAll(composites: seq<(string, Composite)>, lang: Language): (r: Result<seq<string>>)
    ensures r.Ok? <==> forall k :: 0 <= k < |composites| ==> Upper(composites[k].1.op) == "OR"
    ensures r.Ok? ==> |r.value| == |composites|
    ensures r.Ok? ==> forall k :: 0 <= k < |composites| ==> r.value[k] == Join(composites[k].1.components, OrToken(lang))
  {
    if composites == [] then Ok([])
    else
      assert forall k :: 0 < k < |composites| ==> composites[k] == composites[1..][k - 1];
      var e :- Compose(composites[0].1.components, composites[0].1.op, lang);
      var rest :- ComposeAll(composites[1..], lang);
      Ok([e] + rest)
  }

  /** The composites are composed in order: the first that fails decides the error. */
  lemma {:induction false} ComposeAllRaisesFirstError(composites: seq<(string, Composite)>, lang: Language, k: nat)
    requires k < |composites|
    requires forall j :: 0 <= j < k ==> Upper(composites[j].1.op) == "OR"
    requires Upper(composites[k].1.op) != "OR"
    ensures ComposeAll(composites, lang) == Err(Compose(composites[k].1.components, composites[k].1.op, lang).error)
  {
    if k > 0 {
      assert forall j :: 0 < j < |composites| ==> composites[j] == composites[1..][j - 1];
      ComposeAllRaisesFirstError(composites[1..], lang, k - 1);
    }
  }

  /** A format string `head{v}mid{i}tail`. */
  datatype Template = Template(head: string, mid: string, tail: string) {
    function Put(v: string, x: string): string {
      head + v + mid + x + tail
    }

    function Fill(v: string, i: int): string {
      Put(v, IntToString(i))
    }

    predicate SingleLine() {
      '\n' !in head && '\n' !in mid && '\n' !in tail
    }
  }

  /** The index `_generate_enum` gives the value at position `k`: an override
      when the value has one, one more than the previous index otherwise,
      counting from 0. */
  function EnumIndex(names: seq<string>, overrides: seq<(string, int)>, k: nat): int
    requires k < |names|
  {
    match Lookup(overrides, names[k])
    case Some(start) => start
    case None => if k == 0 then 0 else EnumIndex(names, overrides, k - 1) + 1
  }

  /** Without overrides so far, the value at position `k` gets index `k`. */
  lemma {:induction false} EnumIndexCountsFromZero(names: seq<string>, overrides: seq<(string, int)>, k: nat)
    requires k < |names|
    requires forall j :: 0 <= j <= k ==> Lookup(overrides, names[j]).None?
    ensures EnumIndex(names, overrides, k) == k
  {
    if k > 0 {
      EnumIndexCountsFromZero(names, overrides, k - 1);
    }
  }

  /** After an override at position `j`, indices count up from the override. */
  lemma {:induction false} EnumIndexFromOverride(names: seq<string>, overrides: seq<(string, int)>, j: nat, k: nat)
    requires j <= k < |names|
    requires Lookup(overrides, names[j]).Some?
    requires forall m :: j < m <= k ==> Lookup(overrides, names[m]).None?
    ensures EnumIndex(names, overrides, k) == Lookup(overrides, names[j]).value + (k - j)
  {
    if k > j {
      EnumIndexFromOverride(names, overrides, j, k - 1);
    }
  }

  /** Python's `if line:`: a line that is given and not empty. */
  function OptionalLine(line: Option<string>): seq<string> {
    if line.Some? && line.value != "" then [line.value] else []
  }

  /** The lines of the first `n` values, each with its index; `format(v, i)`
      is `f_str.format(v = v, i = i)`. */
  function ValueLines(format: (string, int) -> string, names: seq<string>, overrides: seq<(string, int)>, n: nat): seq<string>
    requires n <= |names|
  {
    if n == 0 then [] else ValueLines(format, names, overrides, n - 1) + [format(names[n - 1], EnumIndex(names, overrides, n - 1))]
  }

  /** Value line `k` is value `k` with its running index. */
  lemma {:induction false} ValueLinesIndex(format: (string, int) -> string, names: seq<string>, overrides: seq<(string, int)>, n: nat)
    requires n <= |names|
    ensures |ValueLines(format, names, overrides, n)| == n
    ensures forall k :: 0 <= k < n ==> ValueLines(format, names, overrides, n)[k] == format(names[k], EnumIndex(names, overrides, k))
  {
    if n > 0 {
      ValueLinesIndex(format, names, overrides, n - 1);
    }
  }

  /** Three runs of lines, each line followed by a line feed. */
  function Block(head: seq<string>, body: seq<string>, tail: seq<string>): string {
    Join(head + body + tail + [""], "\n")
  }

  function EnumText(defn: Definition, format: (string, int) -> string, prefix: Option<string>, suffix: Option<string>): string {
    var names := defn.values.Iter();
    Block(OptionalLine(prefix), ValueLines(format, names, defn.overrides, |names|), OptionalLine(suffix))
  }

  /** The index the value after position `i - 1` gets when it has no override. */
  function NextIndex(names: seq<string>, overrides: seq<(string, int)>, i: nat): int
    requires i <= |names|
  {
    if i == 0 then 0 else EnumIndex(names, overrides, i - 1) + 1
  }

  /** In the loop of `_generate_enum`, an override restarts the count and
      otherwise the count goes on: either way the value gets its `EnumIndex`. */
  lemma EnumLoopIndex(names: seq<string>, overrides: seq<(string, int)>, i: nat, next: int, o: Option<int>, index: int)
    requires i < |names|
    requires next == NextIndex(names, overrides, i)
    requires o == Lookup(overrides, names[i])
    requires index == if o.Some? then o.value else next
    ensures index == EnumIndex(names, overrides, i)
    ensures index + 1 == NextIndex(names, overrides, i + 1)
  {
  }

  /** The lines `_generate_enum` has appended before value `i`: the prefix
      line, then the line of each earlier value. */
  function EnumSoFar(prefix: Option<string>, format: (string, int) -> string, names: seq<string>, overrides: seq<(string, int)>, i: nat): seq<string>
    requires i <= |names|
  {
    if i == 0 then OptionalLine(prefix)
    else EnumSoFar(prefix, format, names, overrides, i - 1) + [format(names[i - 1], EnumIndex(names, overrides, i - 1))]
  }

  lemma {:induction false} EnumSoFarIsLines(prefix: Option<string>, format: (string, int) -> string, names: seq<string>, overrides: seq<(string, int)>, i: nat)
    requires i <= |names|
    ensures EnumSoFar(prefix, format, names, overrides, i) == OptionalLine(prefix) + ValueLines(format, names, overrides, i)
  {
    if i == 0 {
      assert OptionalLine(prefix) + [] == OptionalLine(prefix);
    } else {
      EnumSoFarIsLines(prefix, format, names, overrides, i - 1);
      var line := format(names[i - 1], EnumIndex(names, overrides, i - 1));
      assert OptionalLine(prefix) + ValueLines(format, names, overrides, i - 1) + [line]
        == OptionalLine(prefix) + (ValueLines(format, names, overrides, i - 1) + [line]);
    }
  }

  /** After the loop and the optional suffix line, the joined lines are `EnumText`. */
  lemma EnumLoopDone(defn: Definition, format: (string, int) -> string, prefix: Option<string>, suffix: Option<string>, lines: seq<string>)
    requires lines == EnumSoFar(prefix, format, defn.values.Iter(), defn.overrides, |defn.values.Iter()|) + OptionalLine(suffix)
    ensures Join(lines + [""], "\n") == EnumText(defn, format, prefix, suffix)
  {
    EnumSoFarIsLines(prefix, format, defn.values.Iter(), defn.overrides, |defn.values.Iter()|);
  }

  /** `_generate_enum(defn, f_str, prefix_line, suffix_line)`. */
  method GenerateEnum(defn: Definition, format: (string, int) -> string, prefix: Option<string>, suffix: Option<string>) returns (text: string)
    ensures text == EnumText(defn, format, prefix, suffix)
  {
    var start := 0;
    var offset := 0;
    var vals: seq<string> := [];
    if prefix.Some? && prefix.value != "" {
      vals := vals + [prefix.value];
    }
    var names := defn.values.Iter();
    var i := 0;
    while i < |names|
      invariant 0 <= i <= |names|
      invariant vals == EnumSoFar(prefix, format, names, defn.overrides, i)
      invariant start + offset == NextIndex(names, defn.overrides, i)
    {
      var v := names[i];
      var o := Lookup(defn.overrides, v);
      ghost var next := start + offset;
      if o.Some? {
        start := o.value;
        offset := 0;
      }
      EnumLoopIndex(names, defn.overrides, i, next, o, start + offset);
      vals := vals + [format(v, start + offset)];
      offset := offset + 1;
      i := i + 1;
    }
    ghost var body := vals;
    if suffix.Some? && suffix.value != "" {
      vals := vals + [suffix.value];
    } else {
      assert vals == body + OptionalLine(suffix);
    }
    EnumLoopDone(defn, format, prefix, suffix, vals);
    text := Join(vals + [""], "\n");
  }

  /** `key[1:]`: the key without its leading character. */
  function DropFirst(key: string): (r: string)
    ensures forall c :: c in r ==> c in key
  {
    if key == [] then [] else key[1..]
  }

  /** `head{v}mid{j}tail` for every value after the first, `j` counting from 0. */
  function ShiftLines(t: Template, names: seq<string>): seq<string>
    requires |names| >= 1
  {
    seq(|names| - 1, j requires 0 <= j < |names| - 1 => t.Fill(names[j + 1], j))
  }

  /** `    {v} = enum.auto()` for every value after the first. */
  function AutoLines(names: seq<string>): seq<string>
    requires |names| >= 1
  {
    seq(|names| - 1, j requires 0 <= j < |names| - 1 => "    " + names[j + 1] + " = enum.auto()")
  }

  /** One line per composite, with its name and its expression. */
  function CompositeLines(t: Template, composites: seq<(string, Composite)>, exprs: seq<string>): seq<string>
    requires |exprs| == |composites|
  {
    seq(|composites|, k requires 0 <= k < |composites| => t.Put(composites[k].0, exprs[k]))
  }

  /** One line per alias, with its name and its literal. */
  function LiteralLines(t: Template, literals: seq<(string, string)>): seq<string> {
    seq(|literals|, k requires 0 <= k < |literals| => t.Put(literals[k].0, literals[k].1))
  }

  /** `c_content(defn)`. */
  function CContent(defn: Definition): Result<string> {
    match defn.ctype
    case ENUM =>
      if defn.asPreproc then Ok(EnumText(defn, Template("#define ", " ", "").Fill, None, None))
      else Ok(EnumText(defn, Template("    ", " = ", ",").Fill, Some("enum " + DropFirst(defn.key) + " {"), Some("};")))
    case FLAGS =>
      if defn.values.Literals? then Err(TypeError)
      else
        var names := defn.values.names;
        var exprs :- ComposeAll(defn.composites, C);
        if names == [] then Err(IndexError)
        else Ok(Block(
          ["#define " + names[0] + " 0"],
          ShiftLines(Template("#define ", " (1 << ", ")"), names),
          CompositeLines(Template("#define ", " (", ")"), defn.composites, exprs)))
    case ALIASES =>
      if defn.values.Names? then Err(AttributeError)
      else if defn.asPreproc then Ok(Join(LiteralLines(Template("#define ", " ", ""), defn.values.literals) + [""], "\n"))
      else Ok(Join(
        ["enum " + DropFirst(defn.key) + " {"]
        + LiteralLines(Template("    ", " = ", ","), defn.values.literals)
        + ["};\n"], "\n"))
    case NONE => Err(ValueError)
  }

  /** `asm_content(defn)`; composites are composed with the C token. */
  function AsmContent(defn: Definition): Result<string> {
    match defn.ctype
    case ENUM => Ok(EnumText(defn, Template("    .equ ", ", ", "").Fill, None, None))
    case FLAGS =>
      if defn.values.Literals? then Err(TypeError)
      else
        var names := defn.values.names;
        var exprs :- ComposeAll(defn.composites, C);
        if names == [] then Err(IndexError)
        else Ok(Block(
          ["    .equ " + names[0] + ", 0"],
          ShiftLines(Template("    .equ ", ", (1 << ", ")"), names),
          CompositeLines(Template("    .equ ", ", (", ")"), defn.composites, exprs)))
    case ALIASES =>
      if defn.values.Names? then Err(AttributeError)
      else Ok(Join(LiteralLines(Template("    .equ ", ", ", ""), defn.values.literals) + [""], "\n"))
    case NONE => Err(ValueError)
  }

  /** `py_content(defn)`. */
  function PyContent(defn: Definition): Result<string> {
    match defn.ctype
    case ENUM => Ok(EnumText(defn, Template("    ", " = ", "").Fill, Some("class " + DropFirst(defn.key) + "(enum.Enum):"), None))
    case FLAGS =>
      if defn.values.Literals? then Err(TypeError)
      else
        var names := defn.values.names;
        var exprs :- ComposeAll(defn.composites, PY);
        if names == [] then Err(IndexError)
        else Ok(Block(
          ["class " + DropFirst(defn.key) + "(enum.IntFlag):", "    " + names[0] + " = 0"],
          AutoLines(names),
          CompositeLines(Template("    ", " = ", ""), defn.composites, exprs)))
    case ALIASES =>
      if defn.values.Names? then Err(AttributeError)
      else Ok(Join(
        ["class " + DropFirst(defn.key) + "(enum.Enum):"]
        + LiteralLines(Template("    ", " = ", ""), defn.values.literals)
        + [""], "\n"))
    case NONE => Err(ValueError)
  }

  /** `c_header(target, origin_file_name)`. */
  function CHeader(target: string, origin: string): string {
    var guard := FileGuard(target) + "_H";
    Join(["// " + GeneratedBanner, "// " + OriginFileBanner(origin), "", "#ifndef " + guard, "#define " + guard, ""], "\n")
  }

  /** `asm_header(target, origin_file_name)`. */
  function AsmHeader(target: string, origin: string): string {
    var guard := FileGuard(target) + "_INC";
    Join(["; " + GeneratedBanner, "; " + OriginFileBanner(origin), "", "    .ifndef " + guard, "    .set " + guard + ", 1", ""], "\n")
  }

  /** `py_header(target, origin_file_name)`. */
  function PyHeader(target: string, origin: string): string {
    Join(["# " + GeneratedBanner, "# " + OriginFileBanner(origin), "", "import enum", ""], "\n")
  }

  /** `LANG_FUNCS[lang].header`. */
  function Header(lang: Language, target: string, origin: string): string {
    match lang
    case C => CHeader(target, origin)
    case ASM => AsmHeader(target, origin)
    case PY => PyHeader(target, origin)
  }

  /** `LANG_FUNCS[lang].footer`: `c_footer`, `asm_footer`, `py_footer`. */
  function Footer(lang: Language, target: string): string {
    match lang
    case C => "#endif"
    case ASM => "    .endif"
    case PY => ""
  }

  /** `LANG_FUNCS[lang].content`. */
  function Content(lang: Language, defn: Definition): Result<string> {
    match lang
    case C => CContent(defn)
    case ASM => AsmContent(defn)
    case PY => PyContent(defn)
  }

  /** `LANG_EXTS`: the file extension of each language, by its value. */
  const LangExts: seq<string> := [".h", ".inc", ".py"]

  function Extension(lang: Language): string {
    LangExts[LanguageValue(lang)]
  }

  /** Each language writes files with its own extension. */
  lemma ExtensionsDistinct(a: Language, b: Language)
    ensures Extension(a) == Extension(b) <==> a == b
  {
  }

  /** When no language can render a definition: its type is NONE; a FLAGS
      block whose values are a mapping, whose composites are not all OR, or
      which has no values; an ALIASES block whose values are a list. */
  predicate ContentFails(defn: Definition) {
    match defn.ctype
    case NONE => true
    case ENUM => false
    case FLAGS =>
      defn.values.Literals? || !(forall k :: 0 <= k < |defn.composites| ==> Upper(defn.composites[k].1.op) == "OR")
      || |defn.values.names| == 0
    case ALIASES => defn.values.Names?
  }

  /** Every language fails on exactly the same definitions. */
  lemma ContentFailsExactly(lang: Language, defn: Definition)
    ensures Content(lang, defn).Err? <==> ContentFails(defn)
  {
  }

  /** The error each failing definition raises, in the order Python evaluates:
      a NONE type; slicing a mapping of FLAGS values; then `values[0]` of an
      empty list; `.items()` of a list of ALIASES values. */
  lemma ContentErrors(lang: Language, defn: Definition)
    ensures defn.ctype == ConstType.NONE ==> Content(lang, defn) == Err(ValueError)
    ensures defn.ctype == FLAGS && defn.values.Literals? ==> Content(lang, defn) == Err(TypeError)
    ensures defn.ctype == FLAGS && defn.values == Names([])
      && (forall k :: 0 <= k < |defn.composites| ==> Upper(defn.composites[k].1.op) == "OR")
      ==> Content(lang, defn) == Err(IndexError)
    ensures defn.ctype == ALIASES && defn.values.Names? ==> Content(lang, defn) == Err(AttributeError)
  {
  }

  /** A FLAGS block with a list of values fails at its first composite that
      is not OR, before `values[0]` is read. */
  lemma FlagsCompositeError(lang: Language, defn: Definition, k: nat)
    requires defn.ctype == FLAGS && defn.values.Names?
    requires k < |defn.composites|
    requires forall j :: 0 <= j < k ==> Upper(defn.composites[j].1.op) == "OR"
    requires Upper(defn.composites[k].1.op) != "OR"
    ensures Content(lang, defn) == Err(if Upper(defn.composites[k].1.op) == "NONE" then ValueError else KeyError(Upper(defn.composites[k].1.op)))
  {
    ComposeAllRaisesFirstError(defn.composites, if lang == PY then PY else C, k);
  }

  /** Text made of whole lines: empty, or ending in a line feed. */
  predicate WholeLines(text: string) {
    text == [] || text[|text| - 1] == '\n'
  }

  /** A join over parts ended by an empty part is whole lines. */
  lemma TerminatedIsLines(parts: seq<string>)
    ensures WholeLines(Join(parts + [""], "\n"))
  {
    if parts != [] {
      JoinSnoc(parts, "\n", "");
    }
  }

  /** A join whose last part is `};` and a line feed is whole lines. */
  lemma ClosedIsLines(parts: seq<string>)
    requires parts != []
    ensures WholeLines(Join(parts + ["};\n"], "\n"))
  {
    JoinSnoc(parts, "\n", "};\n");
  }

  lemma BlockIsLines(head: seq<string>, body: seq<string>, tail: seq<string>)
    ensures WholeLines(Block(head, body, tail))
  {
    TerminatedIsLines(head + body + tail);
  }

  lemma EnumTextIsLines(defn: Definition, format: (string, int) -> string, prefix: Option<string>, suffix: Option<string>)
    ensures WholeLines(EnumText(defn, format, prefix, suffix))
  {
    var names := defn.values.Iter();
    BlockIsLines(OptionalLine(prefix), ValueLines(format, names, defn.overrides, |names|), OptionalLine(suffix));
  }

  lemma CContentIsLines(defn: Definition)
    requires CContent(defn).Ok?
    ensures WholeLines(CContent(defn).value)
  {
    match defn.ctype
    case ENUM =>
      if defn.asPreproc {
        EnumTextIsLines(defn, Template("#define ", " ", "").Fill, None, None);
      } else {
        EnumTextIsLines(defn, Template("    ", " = ", ",").Fill, Some("enum " + DropFirst(defn.key) + " {"), Some("};"));
      }
    case FLAGS =>
      var names := defn.values.names;
      var exprs := ComposeAll(defn.composites, C).value;
      BlockIsLines(["#define " + names[0] + " 0"],
        ShiftLines(Template("#define ", " (1 << ", ")"), names),
        CompositeLines(Template("#define ", " (", ")"), defn.composites, exprs));
    case ALIASES =>
      if defn.asPreproc {
        TerminatedIsLines(LiteralLines(Template("#define ", " ", ""), defn.values.literals));
      } else {
        ClosedIsLines(["enum " + DropFirst(defn.key) + " {"] + LiteralLines(Template("    ", " = ", ","), defn.values.literals));
      }
  }

  lemma AsmContentIsLines(defn: Definition)
    requires AsmContent(defn).Ok?
    ensures WholeLines(AsmContent(defn).value)
  {
    match defn.ctype
    case ENUM =>
      EnumTextIsLines(defn, Template("    .equ ", ", ", "").Fill, None, None);
    case FLAGS =>
      var names := defn.values.names;
      var exprs := ComposeAll(defn.composites, C).value;
      BlockIsLines(["    .equ " + names[0] + ", 0"],
        ShiftLines(Template("    .equ ", ", (1 << ", ")"), names),
        CompositeLines(Template("    .equ ", ", (", ")"), defn.composites, exprs));
    case ALIASES =>
      TerminatedIsLines(LiteralLines(Template("    .equ ", ", ", ""), defn.values.literals));
  }

  lemma PyContentIsLines(defn: Definition)
    requires PyContent(defn).Ok?
    ensures WholeLines(PyContent(defn).value)
  {
    match defn.ctype
    case ENUM =>
      EnumTextIsLines(defn, Template("    ", " = ", "").Fill, Some("class " + DropFirst(defn.key) + "(enum.Enum):"), None);
    case FLAGS =>
      var names := defn.values.names;
      var exprs := ComposeAll(defn.composites, PY).value;
      BlockIsLines(["class " + DropFirst(defn.key) + "(enum.IntFlag):", "    " + names[0] + " = 0"],
        AutoLines(names),
        CompositeLines(Template("    ", " = ", ""), defn.composites, exprs));
    case ALIASES =>
      TerminatedIsLines(["class " + DropFirst(defn.key) + "(enum.Enum):"] + LiteralLines(Template("    ", " = ", ""), defn.values.literals));
  }

  /** Every emitted block is whole lines: empty, or ending in a line feed. */
  lemma ContentIsLines(lang: Language, defn: Definition)
    requires Content(lang, defn).Ok?
    ensures WholeLines(Content(lang, defn).value)
  {
    match lang
    case C => CContentIsLines(defn);
    case ASM => AsmContentIsLines(defn);
    case PY => PyContentIsLines(defn);
  }
}
