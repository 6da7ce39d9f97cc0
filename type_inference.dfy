/** Java type names for fields, from an explicit hint or from the field's name. */
module TypeInference {
  import opened Wrappers
  import opened Text

  /** The eight type names the generator emits. */
  predicate IsKnownType(t: string) {
    t in {"String", "Long", "Integer", "Boolean", "BigDecimal", "Double", "LocalDate", "LocalDateTime"}
  }

  /** The synonym table of normalizeType, on a lower-cased hint; unknown hints give "String". */
  function HintType(normalized: string): (t: string)
    ensures IsKnownType(t)
  {
    match normalized
    case "string" => "String"
    case "long" => "Long"
    case "integer" => "Integer"
    case "int" => "Integer"
    case "boolean" => "Boolean"
    case "bool" => "Boolean"
    case "bigdecimal" => "BigDecimal"
    case "decimal" => "BigDecimal"
    case "money" => "BigDecimal"
    case "double" => "Double"
    case "localdate" => "LocalDate"
    case "date" => "LocalDate"
    case "localdatetime" => "LocalDateTime"
    case "datetime" => "LocalDateTime"
    case "timestamp" => "LocalDateTime"
    case _ => "String"
  }

  predicate IsEmailName(lower: string) { Contains(lower, "email") }
  predicate IsDateName(lower: string) { EndsWith(lower, "date") }
  predicate IsDateTimeName(lower: string) {
    EndsWith(lower, "at") || EndsWith(lower, "time") || EndsWith(lower, "timestamp")
  }
  predicate IsFlagName(lower: string) { StartsWith(lower, "is") || StartsWith(lower, "has") }
  predicate IsMoneyName(lower: string) {
    Contains(lower, "amount") || Contains(lower, "price") || Contains(lower, "cost") || Contains(lower, "balance")
  }
  predicate IsCountName(lower: string) {
    Contains(lower, "count") || EndsWith(lower, "number") || EndsWith(lower, "qty")
      || EndsWith(lower, "quantity") || EndsWith(lower, "age")
  }

  /** The name rules of normalizeType, tried in order on the lower-cased name. */
  function NameType(lower: string): (t: string)
    ensures IsKnownType(t) && t != "Long" && t != "Double"
  {
    if IsEmailName(lower) then "String"
    else if IsDateName(lower) then "LocalDate"
    else if IsDateTimeName(lower) then "LocalDateTime"
    else if IsFlagName(lower) then "Boolean"
    else if IsMoneyName(lower) then "BigDecimal"
    else if IsCountName(lower) then "Integer"
    else "String"
  }

  /** normalizeType: a hint that is not empty after trimming decides alone; otherwise the name
      does (a null name counts as ""). */
  function NormalizeType(typeHint: Option<string>, fieldNameCamel: Option<string>): (t: string)
    ensures IsKnownType(t)
  {
    var name := fieldNameCamel.GetOr("");
    var hinted := if typeHint.None? then "" else Trim(typeHint.value);
    if hinted != [] then HintType(Lower(hinted))
    else NameType(Lower(name))
  }

  /** A hint that survives trimming decides the type whatever the name; it is matched
      case-insensitively. */
  lemma HintDecides(hint: string, name1: Option<string>, name2: Option<string>)
    requires Trim(hint) != []
    ensures NormalizeType(Some(hint), name1) == NormalizeType(Some(hint), name2)
    ensures NormalizeType(Some(hint), name1) == NormalizeType(Some(Lower(hint)), name1)
  {
    var t := Trim(hint);
    var l := Lower(hint);
    assert Trim(l) == Lower(t) by {
      LowerTrim(hint);
    }
    LowerIdempotent(t);
  }

  /** Name rules apply in order: "emailDate" contains "email", so it is a String although it
      ends in "date". */
  lemma EmailBeforeDate(name: string)
    requires name == "emailDate"
    ensures NormalizeType(None, Some(name)) == "String"
  {
    LowerOfEmailDate(name);
    NameTypeOfEmailDate(Lower(name));
  }

  lemma LowerOfEmailDate(name: string)
    requires name == "emailDate"
    ensures Lower(name) == "emaildate"
  {
  }

  lemma NameTypeOfEmailDate(l: string)
    requires l == "emaildate"
    ensures NameType(l) == "String"
  {
    assert OccursAt(l, "email", 0);
    ContainsIff(l, "email");
  }

  /** "createdAt" ends in "at" (and not in "date"). */
  lemma CreatedAtIsDateTime(name: string)
    requires name == "createdAt"
    ensures NormalizeType(None, Some(name)) == "LocalDateTime"
  {
    LowerOfCreatedAt(name);
    NameTypeOfCreatedAt(Lower(name));
  }

  lemma LowerOfCreatedAt(name: string)
    requires name == "createdAt"
    ensures Lower(name) == "createdat"
  {
  }

  lemma NameTypeOfCreatedAt(l: string)
    requires l == "createdat"
    ensures NameType(l) == "LocalDateTime"
  {
    NotContainsByTriple(l, "email");
    assert !EndsWith(l, "date");
    assert EndsWith(l, "at");
  }

  /** "isActive" starts with "is". */
  lemma IsActiveIsBoolean(name: string)
    requires name == "isActive"
    ensures NormalizeType(None, Some(name)) == "Boolean"
  {
    LowerOfIsActive(name);
    NameTypeOfIsActive(Lower(name));
  }

  lemma LowerOfIsActive(name: string)
    requires name == "isActive"
    ensures Lower(name) == "isactive"
  {
  }

  lemma NameTypeOfIsActive(l: string)
    requires l == "isactive"
    ensures NameType(l) == "Boolean"
  {
    NotContainsByTriple(l, "email");
    assert !EndsWith(l, "date");
    assert !EndsWith(l, "at") && !EndsWith(l, "time") && !EndsWith(l, "timestamp");
    assert StartsWith(l, "is");
  }

  /** "totalPrice" contains "price". */
  lemma TotalPriceIsBigDecimal(name: string)
    requires name == "totalPrice"
    ensures NormalizeType(None, Some(name)) == "BigDecimal"
  {
    LowerOfTotalPrice(name);
    NameTypeOfTotalPrice(Lower(name));
  }

  lemma LowerOfTotalPrice(name: string)
    requires name == "totalPrice"
    ensures Lower(name) == "totalprice"
  {
  }

  lemma NameTypeOfTotalPrice(l: string)
    requires l == "totalprice"
    ensures NameType(l) == "BigDecimal"
  {
    TotalPriceNotEarlier(l);
    NotContainsByTriple(l, "amount");
    assert OccursAt(l, "price", 5);
    ContainsIff(l, "price");
  }

  /** "itemCount" contains "count". */
  lemma ItemCountIsInteger(name: string)
    requires name == "itemCount"
    ensures NormalizeType(None, Some(name)) == "Integer"
  {
    LowerOfItemCount(name);
    NameTypeOfItemCount(Lower(name));
  }

  lemma LowerOfItemCount(name: string)
    requires name == "itemCount"
    ensures Lower(name) == "itemcount"
  {
  }

  lemma NameTypeOfItemCount(l: string)
    requires l == "itemcount"
    ensures NameType(l) == "Integer"
  {
    ItemCountNotEarlier(l);
    ItemCountNotMoney(l);
    assert OccursAt(l, "count", 4);
    ContainsIff(l, "count");
  }

  /** "title" matches no name rule. */
  lemma TitleIsString(name: string)
    requires name == "title"
    ensures NormalizeType(None, Some(name)) == "String"
  {
    LowerOfTitle(name);
    NameTypeOfTitle(Lower(name));
  }

  lemma LowerOfTitle(name: string)
    requires name == "title"
    ensures Lower(name) == "title"
  {
  }

  lemma NameTypeOfTitle(l: string)
    requires l == "title"
    ensures NameType(l) == "String"
  {
    NotContainsByTriple(l, "email");
    assert !EndsWith(l, "date");
    assert !EndsWith(l, "at") && !EndsWith(l, "time") && !EndsWith(l, "timestamp");
    assert !StartsWith(l, "is") && !StartsWith(l, "has");
    TitleNotMoney(l);
    TitleNotCount(l);
  }

  lemma TotalPriceNotEarlier(l: string)
    requires l == "totalprice"
    ensures !IsEmailName(l) && !IsDateName(l) && !IsDateTimeName(l) && !IsFlagName(l)
  {
    NotContainsByTriple(l, "email");
  }

  lemma ItemCountNotEarlier(l: string)
    requires l == "itemcount"
    ensures !IsEmailName(l) && !IsDateName(l) && !IsDateTimeName(l) && !IsFlagName(l)
  {
    NotContainsByTriple(l, "email");
    assert l[..2][1] == 't';
  }

  lemma ItemCountNotMoney(l: string)
    requires l == "itemcount"
    ensures !IsMoneyName(l)
  {
    NotContainsByTriple(l, "amount");
    NotContainsByTriple(l, "price");
    NotContainsByTriple(l, "cost");
    NotContainsByTriple(l, "balance");
  }

  lemma TitleNotMoney(l: string)
    requires l == "title"
    ensures !IsMoneyName(l)
  {
    NotContainsByTriple(l, "amount");
    NotContainsByTriple(l, "price");
    NotContainsByTriple(l, "cost");
    NotContainsByTriple(l, "balance");
  }

  lemma TitleNotCount(l: string)
    requires l == "title"
    ensures !IsCountName(l)
  {
    NotContainsByTriple(l, "count");
  }

  /** looksLikeNameField: the six alternatives of the source all come down to the lower-cased
      name ending in "name"; null and blank names are never name fields. */
  predicate LooksLikeNameField(fieldNameCamel: Option<string>) {
    if fieldNameCamel.None? || IsBlank(fieldNameCamel.value) then false
    else
      var lower := Lower(fieldNameCamel.value);
      lower == "name" || EndsWith(lower, "name") || lower == "firstname" || lower == "lastname"
        || EndsWith(lower, "firstname") || EndsWith(lower, "lastname")
  }

  lemma LooksLikeNameFieldIff(fieldNameCamel: Option<string>)
    ensures LooksLikeNameField(fieldNameCamel) <==>
              fieldNameCamel.Some? && !IsBlank(fieldNameCamel.value)
              && EndsWith(Lower(fieldNameCamel.value), "name")
  {
    if fieldNameCamel.Some? && !IsBlank(fieldNameCamel.value) {
      var lower := Lower(fieldNameCamel.value);
      if EndsWith(lower, "firstname") {
        assert "firstname"[5..] == "name";
        EndsWithTransitive(lower, "firstname", "name");
      }
      if EndsWith(lower, "lastname") {
        assert "lastname"[4..] == "name";
        EndsWithTransitive(lower, "lastname", "name");
      }
    }
  }
}
