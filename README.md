# constgen in Dafny

constgen reads a manifest of constant definitions and writes each one as a C
header, a GNU assembler include or a Python module. This project models two
parts of its Python implementation and proves properties about them.

- The schema (`constgen/schema.py`):
  - the `Definition` record built from each entry of the manifest's
    `definitions` mapping;
  - the `ConstType` and `CompositionOp` enumerations, with the
    case-insensitive lookup of type tags;
  - the defaults for absent fields;
  - `_flatten`, which turns a nested mapping into `/`-joined path keys.
- The emitters (`constgen/lang.py`):
  - `_file_guard`, which derives an include-guard symbol from a path;
  - `_compose` and its token table `LANG_COMPOSE_OPS`;
  - the running index of `_generate_enum`;
  - the header, footer and content text of each language;
  - the `LANG_FUNCS` and `LANG_EXTS` dispatch tables.

Modules, one per file:

- `Wrappers` (`wrappers.dfy`): `Option`, `Result` and the Python exceptions
  the code raises.
- `Text` (`text.dfy`): the Python string operations used, over ASCII:
  - `str.upper`, `str.replace`, `sep.join`, `str.split()` and `str(int)`;
  - `str.upper` is stated character by character;
  - `str.replace` is proved equal to a join of a split;
  - `str.split()` is pinned down by two lemmas: a text without whitespace
    is one word, and every whitespace character separates the words on
    either side of it;
  - `str(int)` is proved against parsing the printed integer back.
  - `Split`, a one-character `str.split(sep)`, is not called by the code.
    The proofs use it to state `str.replace` and to read emitted text line
    by line; it is proved against `sep.join` in both directions.
- `Dict` (`dict.dfy`): Python dicts as key/value sequences in insertion
  order; `d[k] = v` and `dict(items)`.
- `Schema` (`schema.dfy`): `schema.py`.
- `Guard` (`guard.dfy`): `_file_guard`. The two regular-expression
  substitutions are written as the scans the regex engine performs, and each
  is proved equal to a character-by-character reference.
- `Lang` (`lang.dfy`): the rest of `lang.py`. `_generate_enum` is a method
  with a loop, proved equal to the function `EnumText`. The content
  functions use `EnumText`.
- `Lines` (`lines.dfy`): what every header and content block says line by
  line.

How the Python maps to Dafny:

- A dict is a sequence of pairs. A parsed manifest never binds a key twice,
  so a lookup takes the first pair.
- `dict(items)` keeps each key at the place it first appears, with the last
  value given for it.
- Each raised exception is an `Err` result. The model raises the same
  exception as the code, in the order the code evaluates. For FLAGS, that
  order is:
  1. slicing a mapping of values;
  2. each composite, in order;
  3. `values[0]` of an empty list.
- A format string `head{v}mid{i}tail` is `Template(head, mid, tail)`, and
  its `format(v = v, i = i)` is `Template.Fill`. `_generate_enum` takes that
  format as a function of the value and its index; the content functions pass
  the `Fill` of their template.
- A `Path` is the text `str(path)` gives. The origin file name is a
  parameter.
- A FLAGS definition whose `values` is a mapping fails when the mapping is
  sliced. The model gives `TypeError`, which is what Python versions before
  3.12 raise.

## Model

| member | source | states |
|---|---|---|
| Schema.ConstTypeNamed | constgen/schema.py:14-18 | `ConstType[name]` succeeds exactly for the four member names and returns the member of that name; any other name raises `KeyError(name)` |
| Schema.CompositionOpNamed | constgen/schema.py:21-23 | `CompositionOp[name]` succeeds exactly for `NONE` and `OR` and returns that member; any other name raises `KeyError(name)` |
| Schema.TypeTagIgnoresCase | constgen/schema.py:44 | the upper-cased tag names member `t` exactly when the tag equals `t`'s name ignoring ASCII case |
| Schema.DefinitionOf | constgen/schema.py:43-48 | a definition is built exactly when the tag is present and valid and `values` is present; the errors, in order: `KeyError('type')`, `KeyError` of the upper-cased unknown tag, `KeyError('values')`; on success the key, type and values are carried over, and absent composites, `as_preproc` and overrides default to `{}`, `False` and `{}` |
| Schema.NewSchema | constgen/schema.py:41-50 | `Schema(defs)` succeeds exactly when every entry does; on success there is one definition per input key, in order, whose key is that mapping key |
| Schema.NewSchemaRaisesFirstError | constgen/schema.py:42-49 | the error raised is that of the first entry that fails |
| Schema.FromMapping | constgen/schema.py:53-54 | a missing `definitions` key raises `KeyError('definitions')`; otherwise the result is that of `Schema` on its value |
| Dict.DictOf | constgen/schema.py:35 | `dict(items)` binds each key once, binds exactly the keys of `items`, binds each to its last value in `items`, and orders the keys as they first appear in `items` |
| Dict.DictOfUnique | constgen/schema.py:35 | those four facts determine `dict(items)`: any dict that meets them is it |
| Dict.DictOfRepeatedKey | constgen/schema.py:35 | `dict([('a', 1), ('b', 2), ('a', 3)])` is `{'a': 3, 'b': 2}`: the repeated key keeps its first place and takes its last value |
| Schema.Flatten | constgen/schema.py:26-35 | the loop, with its recursive calls, computes `Flattened`, the dict of the pairs collected entry by entry |
| Schema.FlattenJoinsKeyPaths | constgen/schema.py:26-33 | when no top-level key is empty and no two paths join to the same key, the result has one key per leaf, in order: the leaf's key path joined with the separator (a top-level leaf keeps its own key), paired with the unchanged leaf value |
| Schema.FlattenKeepsLastLeaf | constgen/schema.py:28-35 | when no top-level key is empty, the result binds exactly the joined paths of the leaves, in the order each path first appears, each to the value of the last leaf whose path joins to it |
| Schema.EmptyTopLevelKeyIsDropped | constgen/schema.py:29 | an empty key at the top level contributes nothing to its children's keys: `{'': {'b': 1}}` flattens to `{'b': 1}` |
| Schema.NestedEmptyKeyIsJoined | constgen/schema.py:29 | an empty key below the top level is joined like any other: `{'a': {'': {'b': 1}}}` flattens to `{'a//b': 1}` |
| Text.ReplaceIsJoinOfSplit | constgen/lang.py:32-35 | `s.replace(c, w)` is `w.join(s.split(c))`: every occurrence of `c` is replaced by `w` and nothing else changes |
| Text.WordsOfWord | constgen/lang.py:33 | `w.split()` of a non-empty text without whitespace is `[w]` |
| Text.WordsAtSpace | constgen/lang.py:33 | `(a + c + b).split()` for a whitespace character `c` is `a.split() + b.split()`: no word runs across whitespace, so `'_'.join(….split())` puts one `_` between neighbouring words, however much whitespace separates them |
| Guard.FileGuardOfCamelCase | constgen/lang.py:28-35 | a case change inside a word becomes one `_`: `_file_guard('aB')` is `A_B` |
| Guard.SpaceUpperRunsIsReference | constgen/lang.py:31 | `re.sub('([A-Z]+)', r' \1', s)` puts a space before exactly the upper-case letters that do not follow an upper-case letter |
| Guard.SpaceCapitalWordsIsReference | constgen/lang.py:30 | `re.sub('([A-Z][a-z]+)', r' \1', s)` puts a space before exactly the upper-case letters followed by a lower-case letter |
| Guard.FileGuard | constgen/lang.py:28-35 | the guard holds no lower-case letter, no whitespace (so no space), and no `-`, `/` or `.` |
| Guard.FileGuardKeepsLetters | constgen/lang.py:28-35 | with the separators (`-`, `/`, `.`, `_`, whitespace) removed, the guard is the path with its separators removed, upper-cased: no other character is lost, added or reordered |
| Lang.Compose | constgen/lang.py:38-44 | composing succeeds exactly when the op upper-cases to `OR`, and then joins the components with `|` for C and Python and with nothing for assembly; `NONE` raises `ValueError`; any other op raises `KeyError` of the upper-cased name |
| Lang.ComposeAll | constgen/lang.py:105 | the composites of a block all compose exactly when every op is `OR`; the expressions are then in composite order, each its components joined with the language's token |
| Lang.ComposeAllRaisesFirstError | constgen/lang.py:160 | the error raised is that of the first composite that is not `OR` |
| Lang.EnumIndexCountsFromZero | constgen/lang.py:51-64 | while no value carries an override, the value at position `k` gets index `k` |
| Lang.EnumIndexFromOverride | constgen/lang.py:59-64 | a value with an override gets exactly the override, and each following value without one gets the previous index plus one |
| Lang.GenerateEnum | constgen/lang.py:47-69 | the loop's output is `EnumText`: the optional prefix line, one line per value with its running index, the optional suffix line, joined by line feeds with a final line feed |
| Lines.EnumTextLines | constgen/lang.py:55-69 | split at line feeds, an enum block is exactly its prefix line (when given and non-empty), then the value lines in input order, then its suffix line, then an empty last piece |
| Lines.CEnumLines | constgen/lang.py:90-101 | a C enum is one `#define {v} {i}` line per value when `as_preproc` is set, and otherwise `enum {key[1:]} {`, one `    {v} = {i},` line per value and `};`; either way the text then ends with a line feed |
| Lines.AsmEnumLines | constgen/lang.py:153-155 | an assembler enum is one `    .equ {v}, {i}` line per value, then a final line feed |
| Lines.PyEnumLines | constgen/lang.py:196-199 | a Python enum is `class {key[1:]}(enum.Enum):` followed by one `    {v} = {i}` line per value, then a final line feed |
| Lines.CFlagsLines | constgen/lang.py:103-112 | a C FLAGS block defines `values[0]` as `0`, the value at position `j >= 1` as `(1 << j-1)`, and then each composite, in order, as its components joined by `|` |
| Lines.AsmFlagsLines | constgen/lang.py:157-167 | the same for assembly with `.equ` lines; the composites are joined by `|` because they are composed as C |
| Lines.PyFlagsLines | constgen/lang.py:201-210 | a Python FLAGS block is an `enum.IntFlag` class whose first member is `0`, whose other members are `enum.auto()` in order, and whose composites follow, each joined by `|` |
| Lines.CAliasesLines | constgen/lang.py:114-129 | every alias is emitted with its literal unchanged, in mapping order: as `#define` lines, or as members of `enum {key[1:]} {` closed by `};`; either way the text then ends with a line feed |
| Lines.AsmAliasesLines | constgen/lang.py:169-174 | every alias is one `    .equ {k}, {v}` line, in mapping order, then a final line feed |
| Lines.PyAliasesLines | constgen/lang.py:212-218 | every alias is one `    {k} = {v}` member of `class {key[1:]}(enum.Enum):`, in mapping order, then a final line feed |
| Lang.ContentFailsExactly | constgen/lang.py:88-132 | every language fails on exactly the same definitions: the NONE type, FLAGS whose values are a mapping, FLAGS with a composite that is not `OR`, FLAGS with no values, and ALIASES whose values are a list |
| Lang.ContentErrors | constgen/lang.py:131-132 | the NONE type raises `ValueError`, FLAGS values given as a mapping raise `TypeError`, empty FLAGS values raise `IndexError`, and ALIASES values given as a list raise `AttributeError`, in every language |
| Lang.FlagsCompositeError | constgen/lang.py:103-105 | with a list of values, a FLAGS block raises the error of its first composite that is not `OR` (`ValueError` for `NONE`, `KeyError` otherwise) before `values[0]` is read |
| Lang.ContentIsLines | constgen/lang.py:107-112 | every block any language emits is empty or ends with a line feed |
| Lines.CHeaderLines | constgen/lang.py:72-85 | the C header is the banner and the origin file as `//` comments, a blank line, and the guard `{file guard}_H` tested with `#ifndef` and defined with `#define`, then a final line feed; the footer `#endif` closes it |
| Lines.AsmHeaderLines | constgen/lang.py:135-148 | the assembler header is the banner and the origin file as `;` comments, a blank line, then `{file guard}_INC` tested with `.ifndef` and set to 1, then a final line feed; the footer `.endif` closes it |
| Lines.PyHeaderLines | constgen/lang.py:180-191 | the Python header is the banner and the origin file as `#` comments, a blank line and the `import enum` the emitted classes rely on, then a final line feed; the footer is empty |
| Lang.ExtensionsDistinct | constgen/lang.py:232-236 | the three languages write files with three different extensions |

## Left out

- File output, not modelled because it is I/O:
  - `constgen/io.py` and `constgen/dump.py`: creating directories and
    writing the header, content and footer to files;
  - the command line: `constgen/constgen.py` and `constgen()`.
- `Schema.from_file` and `Schema.from_string`: reading files and parsing
  JSON. The model starts from the parsed mapping.
- The C++ sources `src/main.cpp`, `src/schema.cpp` and `include/constgen.h`
  are not part of this model. They are an unfinished port: `generate` is
  declared but never defined.
- Ill-typed manifest values are not modelled. Examples: a non-string type
  tag, a composite without `components` or `op`, a non-integer override.
  Every field has the type the emitters expect, or is absent.
- Literal alias values are kept as the text Python prints for them;
  converting a JSON number to text is not modelled.
- Only ASCII text is modelled:
  - `str.upper` and the two regular expressions act on ASCII letters only;
  - `str.split()` splits on ASCII whitespace only.
- Path normalisation by `pathlib` is not modelled: the target is the text
  `str(target)` already gives.
- The values of the `ConstType` and `CompositionOp` flag enumerations are
  only modelled where they are used. `CompositionOp.OR.value` selects a
  column of the token table.
- Python's `enum.auto()` in an `IntFlag` is not evaluated. The model emits
  `enum.auto()` as text, as the code does.
- Lines.CFlagsLines, Lines.AsmFlagsLines and Lines.PyFlagsLines state the
  text of each flag line. They do not evaluate `1 << j` as a number.
- The line lemmas in `Lines` apply only to definitions whose names,
  components and literals hold no line feed, and the header lemmas only to
  an origin file name without one. When one does, the emitted
  text holds more lines than there are entries.
- Schema.FlattenJoinsKeyPaths and Schema.FlattenKeepsLastLeaf apply only
  when no top-level key is empty, because such a key adds nothing to the
  path. Schema.EmptyTopLevelKeyIsDropped shows that case.
- Lang.ContentErrors covers the empty FLAGS list only when all composites
  are `OR`. Otherwise Lang.FlagsCompositeError gives the error.
