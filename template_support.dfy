/** Java source snippets for the generated entity and DTO classes: the imports their field types
    need, field declarations, an all-arguments constructor, getters and the class file around a
    body. Each StringBuilder loop is a method proved equal to a function over the field list. */
module TemplateSupport {
  import opened Wrappers
  import opened Text
  import opened Domain

  /** The imports of TYPE_IMPORTS. */
  predicate IsTypeImport(imp: string) {
    imp == "java.math.BigDecimal" || imp == "java.time.LocalDate" || imp == "java.time.LocalDateTime"
  }

  /** TYPE_IMPORTS.get: the import a field type needs, if any. */
  function ImportFor(fieldType: string): (r: Option<string>)
    ensures r.Some? ==> IsTypeImport(r.value)
    ensures r.Some? <==> fieldType == "BigDecimal" || fieldType == "LocalDate" || fieldType == "LocalDateTime"
  {
    if fieldType == "BigDecimal" then Some("java.math.BigDecimal")
    else if fieldType == "LocalDate" then Some("java.time.LocalDate")
    else if fieldType == "LocalDateTime" then Some("java.time.LocalDateTime")
    else None
  }

  /** Some field of the list needs the import. */
  predicate NeededBy(fields: seq<FieldSpec>, imp: string) {
    exists k :: 0 <= k < |fields| && ImportFor(fields[k].fieldType) == Some(imp)
  }

  /** The LinkedHashSet collectImports fills: the imports of the field types, each once, in the
      order their first field appears. */
  function ImportsOf(fields: seq<FieldSpec>): (r: seq<string>)
    ensures forall i :: 0 <= i < |r| ==> IsTypeImport(r[i])
    ensures forall i, j :: 0 <= i < j < |r| ==> r[i] != r[j]
    ensures forall imp :: imp in r <==> NeededBy(fields, imp)
  {
    if fields == [] then []
    else
      var init := fields[..|fields| - 1];
      var prev := ImportsOf(init);
      var t := ImportFor(fields[|fields| - 1].fieldType);
      assert forall imp :: NeededBy(init, imp) ==> NeededBy(fields, imp) by {
        forall imp | NeededBy(init, imp) ensures NeededBy(fields, imp) {
          var k :| 0 <= k < |init| && ImportFor(init[k].fieldType) == Some(imp);
          assert fields[k] == init[k];
        }
      }
      assert forall imp :: NeededBy(fields, imp) ==> NeededBy(init, imp) || t == Some(imp) by {
        forall imp | NeededBy(fields, imp) ensures NeededBy(init, imp) || t == Some(imp) {
          var k :| 0 <= k < |fields| && ImportFor(fields[k].fieldType) == Some(imp);
          if k < |init| {
            assert fields[k] == init[k];
          }
        }
      }
      if t.Some? && t.value !in prev then prev + [t.value] else prev
  }

  /** The imports of a prefix of the fields are a prefix of the imports: an import is placed when
      its first field is met and never moves. */
  lemma {:induction false} ImportsOfPrefix(fields: seq<FieldSpec>, p: nat)
    requires p <= |fields|
    ensures ImportsOf(fields[..p]) <= ImportsOf(fields)
    decreases |fields| - p
  {
    if p < |fields| {
      ImportsOfPrefix(fields, p + 1);
      assert fields[..p + 1][..p] == fields[..p];
    } else {
      assert fields[..p] == fields;
    }
  }

  /** collectImports. */
  method CollectImports(fields: seq<FieldSpec>) returns (imports: seq<string>)
    ensures imports == ImportsOf(fields)
  {
    imports := [];
    for i := 0 to |fields|
      invariant imports == ImportsOf(fields[..i])
    {
      assert fields[..i + 1][..i] == fields[..i];
      var target := ImportFor(fields[i].fieldType);
      if target.Some? && target.value !in imports {
        imports := imports + [target.value];
      }
    }
    assert fields[..|fields|] == fields;
  }

  /** One field declaration of fieldsBlock. */
  function FieldLine(f: FieldSpec): string {
    "    private " + f.fieldType + " " + f.name + ";\n"
  }

  /** fieldsBlock: one declaration line per field, then a blank line when there is any field. */
  function FieldsBlockOf(fields: seq<FieldSpec>): string {
    Emit(fields, FieldLine) + (if fields == [] then "" else "\n")
  }

  method FieldsBlock(fields: seq<FieldSpec>) returns (out: string)
    ensures out == FieldsBlockOf(fields)
  {
    out := "";
    for i := 0 to |fields|
      invariant out == Emit(fields[..i], FieldLine)
    {
      assert fields[..i + 1][..i] == fields[..i];
      var line := "    private " + fields[i].fieldType + " " + fields[i].name + ";\n";
      out := out + line;
    }
    assert fields[..|fields|] == fields;
    if |fields| > 0 {
      out := out + "\n";
    }
  }

  /** A name or type written on one line. */
  predicate OneLine(f: FieldSpec) { '\n' !in f.name && '\n' !in f.fieldType }

  lemma FieldLineCount(f: FieldSpec)
    requires OneLine(f)
    ensures CountChar(FieldLine(f), '\n') == 1
  {
    CountCharAppend("    private " + f.fieldType + " " + f.name, ";\n", '\n');
    CountCharAppend("    private " + f.fieldType + " ", f.name, '\n');
    CountCharAppend("    private " + f.fieldType, " ", '\n');
    CountCharAppend("    private ", f.fieldType, '\n');
  }

  /** fieldsBlock has one line per field, and one more exactly when there is a field. */
  lemma FieldsBlockLines(fields: seq<FieldSpec>)
    requires forall f :: f in fields ==> OneLine(f)
    ensures CountChar(FieldsBlockOf(fields), '\n') == |fields| + (if fields == [] then 0 else 1)
  {
    forall f | f in fields ensures CountChar(FieldLine(f), '\n') == 1 {
      FieldLineCount(f);
    }
    EmitCount(fields, FieldLine, '\n');
    CountCharAppend(Emit(fields, FieldLine), if fields == [] then "" else "\n", '\n');
  }

  /** One constructor parameter, "Type name". */
  function Param(f: FieldSpec): string { f.fieldType + " " + f.name }

  /** The constructor parameters in field order. */
  function Params(fields: seq<FieldSpec>): (r: seq<string>)
    ensures |r| == |fields| && forall i :: 0 <= i < |fields| ==> r[i] == Param(fields[i])
  {
    seq(|fields|, i requires 0 <= i < |fields| => Param(fields[i]))
  }

  /** One assignment of the constructor body. */
  function AssignLine(f: FieldSpec): string {
    "        this." + f.name + " = " + f.name + ";\n"
  }

  /** constructorBlock: the parameters joined by ", ", one assignment per field. */
  function ConstructorBlockOf(className: string, fields: seq<FieldSpec>): string {
    "    public " + className + "(" + Join(Params(fields), ", ") + ") {\n" + Emit(fields, AssignLine) + "    }\n\n"
  }

  /** constructorBlock: the separator is written before every parameter but the first. */
  method ConstructorBlock(className: string, fields: seq<FieldSpec>) returns (r: string)
    ensures r == ConstructorBlockOf(className, fields)
  {
    var params := "";
    var body := "";
    for i := 0 to |fields|
      invariant params == Join(Params(fields[..i]), ", ")
      invariant body == Emit(fields[..i], AssignLine)
    {
      var field := fields[i];
      assert fields[..i + 1][..i] == fields[..i];
      assert Params(fields[..i + 1]) == Params(fields[..i]) + [Param(field)];
      JoinSnoc(Params(fields[..i]), Param(field), ", ");
      assert Emit(fields[..i + 1], AssignLine) == body + AssignLine(field);
      if i > 0 {
        params := params + ", ";
      }
      var param := field.fieldType + " " + field.name;
      var assign := "        this." + field.name + " = " + field.name + ";\n";
      params := params + param;
      body := body + assign;
    }
    assert fields[..|fields|] == fields;
    r := "    public " + className + "(" + params + ") {\n" + body + "    }\n\n";
  }

  /** The parameter list of two fields is the two parameters separated by ", ". */
  lemma TwoParams(a: FieldSpec, b: FieldSpec)
    ensures Join(Params([a, b]), ", ") == a.fieldType + " " + a.name + ", " + b.fieldType + " " + b.name
  {
    assert Params([a, b]) == [Param(a), Param(b)];
    assert Params([a, b])[1..] == [Param(b)];
  }

  /** capitalize: null and blank input come back unchanged; otherwise the first character is
      upper-cased and the rest kept. */
  function Capitalize(input: Option<string>): (r: Option<string>)
    ensures r.None? <==> input.None?
    ensures IsNullOrBlank(input) ==> r == input
    ensures !IsNullOrBlank(input) ==> |r.value| == |input.value| && r.value[0] == UpperChar(input.value[0])
    ensures !IsNullOrBlank(input) ==> r.value[1..] == input.value[1..]
  {
    if IsNullOrBlank(input) then input
    else Some([UpperChar(input.value[0])] + input.value[1..])
  }

  /** Capitalising twice is capitalising once. */
  lemma CapitalizeIdempotent(input: Option<string>)
    ensures Capitalize(Capitalize(input)) == Capitalize(input)
  {
    if !IsNullOrBlank(input) {
      var s := input.value;
      var r := Capitalize(input).value;
      var j :| 0 <= j < |s| && !IsWhitespace(s[j]);
      if j > 0 {
        assert r[j] == r[1..][j - 1] == s[j];
      }
      assert !IsWhitespace(r[j]);
      assert UpperChar(r[0]) == r[0];
      assert [r[0]] + r[1..] == r;
    }
  }

  /** One getter of gettersBlock: "get" and the capitalised field name, returning the field. */
  function Getter(f: FieldSpec): string {
    "    public " + f.fieldType + " get" + Capitalize(Some(f.name)).value + "() {\n"
      + "        return " + f.name + ";\n"
      + "    }\n\n"
  }

  method GettersBlock(fields: seq<FieldSpec>) returns (out: string)
    ensures out == Emit(fields, Getter)
  {
    out := "";
    for i := 0 to |fields|
      invariant out == Emit(fields[..i], Getter)
    {
      assert fields[..i + 1][..i] == fields[..i];
      var field := fields[i];
      var getter := "    public " + field.fieldType + " get" + Capitalize(Some(field.name)).value + "() {\n"
        + "        return " + field.name + ";\n"
        + "    }\n\n";
      out := out + getter;
    }
    assert fields[..|fields|] == fields;
  }

  /** The getter of a field named by a lower-case word upper-cases that letter after "get". */
  lemma GetterOfLowerName(f: FieldSpec)
    requires f.name != [] && IsLower(f.name[0])
    ensures Capitalize(Some(f.name)) == Some([UpperChar(f.name[0])] + f.name[1..])
    ensures Capitalize(Some(f.name)).value[0] != f.name[0]
  {
    assert !IsBlank(f.name) by {
      assert !IsWhitespace(f.name[0]);
    }
  }

  /** One import line of classFile. */
  function ImportLine(imp: string): string { "import " + imp + ";\n" }

  /** classFile: the package line, the imports with a blank line after them when there are any,
      then the class around the body. */
  function ClassFileOf(pkg: string, className: string, imports: seq<string>, body: string): string {
    "package " + pkg + ";\n\n"
      + (if imports == [] then "" else Emit(imports, ImportLine) + "\n")
      + "public class " + className + " {\n\n" + body + "}\n"
  }

  method ClassFile(pkg: string, className: string, imports: seq<string>, body: string) returns (r: string)
    ensures r == ClassFileOf(pkg, className, imports, body)
  {
    var out := "package " + pkg + ";\n\n";
    if |imports| > 0 {
      var section := "";
      for i := 0 to |imports|
        invariant section == Emit(imports[..i], ImportLine)
      {
        assert imports[..i + 1][..i] == imports[..i];
        var line := "import " + imports[i] + ";\n";
        section := section + line;
      }
      assert imports[..|imports|] == imports;
      out := out + section + "\n";
    }
    out := out + "public class " + className + " {\n\n";
    out := out + body;
    out := out + "}\n";
    r := out;
  }

  /** The class file opens with its package line and closes the class. */
  lemma ClassFileFrame(pkg: string, className: string, imports: seq<string>, body: string)
    ensures StartsWith(ClassFileOf(pkg, className, imports, body), "package " + pkg + ";\n\n")
    ensures EndsWith(ClassFileOf(pkg, className, imports, body), "}\n")
  {
    var head := "package " + pkg + ";\n\n";
    var middle := if imports == [] then "" else Emit(imports, ImportLine) + "\n";
    var tail := "public class " + className + " {\n\n" + body;
    var r := ClassFileOf(pkg, className, imports, body);
    assert r == head + (middle + tail + "}\n");
    assert r == (head + middle + tail) + "}\n";
  }

  /** The import lines start with the first import. */
  lemma EmitFirst(imports: seq<string>)
    requires imports != []
    ensures Emit(imports, ImportLine) == ImportLine(imports[0]) + Emit(imports[1..], ImportLine)
  {
    EmitAppend([imports[0]], imports[1..], ImportLine);
    assert [imports[0]] + imports[1..] == imports;
    assert [imports[0]][..0] == [];
  }

  /** Without imports, the class declaration follows the package line. */
  lemma ClassFileWithoutImports(pkg: string, className: string, body: string)
    ensures StartsWith(ClassFileOf(pkg, className, [], body)[|"package " + pkg + ";\n\n"|..],
                       "public class " + className + " {\n\n")
  {
    var head := "package " + pkg + ";\n\n";
    var decl := "public class " + className + " {\n\n";
    assert ClassFileOf(pkg, className, [], body) == head + decl + (body + "}\n");
    AfterPrefix(head, decl, body + "}\n");
  }

  /** With imports, the first import follows the package line. */
  lemma ClassFileWithImports(pkg: string, className: string, imports: seq<string>, body: string)
    requires imports != []
    ensures StartsWith(ClassFileOf(pkg, className, imports, body)[|"package " + pkg + ";\n\n"|..],
                       "import " + imports[0] + ";\n")
  {
    var head := "package " + pkg + ";\n\n";
    var decl := "public class " + className + " {\n\n";
    var more := Emit(imports[1..], ImportLine) + "\n" + (decl + body + "}\n");
    EmitFirst(imports);
    assert ClassFileOf(pkg, className, imports, body) == head + ImportLine(imports[0]) + more;
    AfterPrefix(head, ImportLine(imports[0]), more);
  }
}
