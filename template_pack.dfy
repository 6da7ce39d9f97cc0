/** Template packs: a name selecting a directory of templates, with a fallback to the standard
    pack for unknown names. */
module TemplatePacks {
  import opened Wrappers
  import opened Text

  datatype TemplatePack = TemplatePack(name: string)

  const StandardPackName: string := "spring-boot-3-standard"

  /** availablePacks(), in declaration order. */
  function AvailablePacks(): (packs: seq<string>)
    ensures StandardPackName in packs
    ensures |packs| == 3
  {
    [StandardPackName, "microservices-pattern", "ddd-layered"]
  }

  /** templatePath: the file name under "templates/<pack name>/". */
  function TemplatePath(pack: TemplatePack, fileName: string): (path: string)
    ensures |path| == 11 + |pack.name| + |fileName|
    ensures StartsWith(path, "templates/")
    ensures EndsWith(path, "/" + fileName)
    ensures path[10..10 + |pack.name|] == pack.name
  {
    "templates/" + pack.name + "/" + fileName
  }

  /** fromName: a listed pack name is kept; null, blank and unknown names give the standard
      pack. */
  function FromName(name: Option<string>): (pack: TemplatePack)
    ensures pack.name in AvailablePacks()
    ensures name.Some? && name.value in AvailablePacks() ==> pack.name == name.value
    ensures name.None? || name.value !in AvailablePacks() ==> pack.name == StandardPackName
  {
    if name.None? then TemplatePack(StandardPackName)
    else if IsBlank(name.value) then
      BlankNamesAreNotPacks(name.value);
      TemplatePack(StandardPackName)
    else if name.value in AvailablePacks() then TemplatePack(name.value)
    else TemplatePack(StandardPackName)
  }

  /** fromName is idempotent on its own output. */
  lemma FromNameIdempotent(name: Option<string>)
    ensures FromName(Some(FromName(name).name)) == FromName(name)
  {
  }

  /** A blank name is never a listed pack, so the blank test and the membership test agree. */
  lemma BlankNamesAreNotPacks(name: string)
    requires IsBlank(name)
    ensures name !in AvailablePacks()
  {
    if |name| > 0 {
      assert IsWhitespace(name[0]);
    }
  }
}
