/**
  The `Data` record of db/models.go and its primary key. Go's reflection over
  the struct (`t.Field(i)`, `field.Tag.Get("fieldname")`, `v.Field(i).Kind()`)
  is modelled by explicit tables of the field names, tags and kinds in
  declaration order, and a record by the sequence of its field values in that
  same order.
 */
module Models {

  /** The reflect kinds that occur among the fields of `Data`. */
  datatype Kind = KString | KInt | KBool

  /** The fields of `Data` in declaration order (db/models.go), as three
      parallel tables: `t.Field(i).Name` and `t.Field(i).Tag.Get("fieldname")`
      ("" for an untagged field); FieldKind gives `t.Field(i).Type.Kind()`. */
  const FieldCount: nat := 38

  const FieldNames: seq<string> := [
    "Date",
    "RowNumber",
    "Search",
    "IsMerged",
    "Payment",
    "PVZ",
    "Email",
    "Inscription",
    "Details",
    "Texture",
    "Pendant",
    "Ring",
    "ForNotes",
    "Socials",
    "FullName",
    "InscriptionBracelet",
    "Description",
    "PostCode",
    "Link",
    "TimeTo",
    "EdgeLower",
    "DeliveryCost",
    "Phone",
    "Earrings",
    "City",
    "TimeFrom",
    "DeliveryType",
    "Notes",
    "BoxberryNumber",
    "EdgeUpper",
    "Type",
    "Extras",
    "DeliveryAddress",
    "ForConfirmation",
    "Symbol",
    "Subtype",
    "Sum",
    "PickupNumber"
  ]

  const FieldTags: seq<string> := [
    "",
    "",
    "",
    "",
    "Оплата",
    "Код ПВЗ",
    "e-mail",
    "Надпись",
    "Характеристики",
    "Фактура",
    "Подвеска",
    "Кольцо",
    "Для заметок",
    "Соцсеть",
    "ФИО",
    "Браслет надпись",
    "Описание",
    "Индекс",
    "Ссылка",
    "...время до",
    "Нижний торец",
    "Цена доставки",
    "Телефон",
    "Серьги",
    "Город",
    "Время с...",
    "Способ доставки",
    "Заметки",
    "Номер заказа (Boxberry)",
    "Верхний торец",
    "Тип",
    "Дополнительно",
    "Адрес доставки",
    "Для подтверждения",
    "Символ",
    "Вид",
    "Сумма",
    "Номер самовывоза"
  ]

  /** `t.Field(i).Type.Kind()`: RowNumber and Sum are `int`, IsMerged is
      `bool`, every other field is a `string`. */
  function FieldKind(i: nat): Kind
  {
    if i == RowNumberIdx || i == SumIdx then KInt
    else if i == IsMergedIdx then KBool
    else KString
  }

  /** `primaryKeys`. */
  const PrimaryKeys: seq<string> := ["Date", "RowNumber"]

  // Positions of the fields the pipeline touches by name.
  const DateIdx: nat := 0
  const RowNumberIdx: nat := 1
  const SearchIdx: nat := 2
  const IsMergedIdx: nat := 3
  const InscriptionIdx: nat := 7
  const InscriptionBraceletIdx: nat := 15
  const LinkIdx: nat := 18
  const TypeIdx: nat := 30
  const SumIdx: nat := 36

  /** The header name of the link column and of the sum column. */
  const LinkHeader: string := "Ссылка"
  const SumHeader: string := "Сумма"

  /** The three tables have one entry per field. */
  lemma FieldTablesAligned()
    ensures |FieldNames| == |FieldTags| == FieldCount
  {
  }

  /** A name the SQL text builders can list: non-empty, and free of the
      separators they put between names. */
  predicate PlainName(s: string) {
    |s| > 0 && ',' !in s && ' ' !in s && '?' !in s
  }

  lemma PlainNames0()
    ensures forall i :: 0 <= i < 5 ==> PlainName(FieldNames[i])
  {
  }

  lemma PlainNames5()
    ensures forall i :: 5 <= i < 10 ==> PlainName(FieldNames[i])
  {
  }

  lemma PlainNames10()
    ensures forall i :: 10 <= i < 15 ==> PlainName(FieldNames[i])
  {
  }

  lemma PlainNames15()
    ensures forall i :: 15 <= i < 20 ==> PlainName(FieldNames[i])
  {
  }

  lemma PlainNames20()
    ensures forall i :: 20 <= i < 25 ==> PlainName(FieldNames[i])
  {
  }

  lemma PlainNames25()
    ensures forall i :: 25 <= i < 30 ==> PlainName(FieldNames[i])
  {
  }

  lemma PlainNames30()
    ensures forall i :: 30 <= i < 35 ==> PlainName(FieldNames[i])
  {
  }

  lemma PlainNames35()
    ensures forall i :: 35 <= i < 38 ==> PlainName(FieldNames[i])
  {
  }

  /** Every field name is plain. */
  lemma PlainNames()
    ensures forall i :: 0 <= i < FieldCount ==> PlainName(FieldNames[i])
  {
    PlainNames0();
    PlainNames5();
    PlainNames10();
    PlainNames15();
    PlainNames20();
    PlainNames25();
    PlainNames30();
    PlainNames35();
  }

  /** Every tag of the model, "" included (the untagged fields contribute it). */
  function ModelTags(): (tags: set<string>)
    ensures forall i :: 0 <= i < FieldCount ==> FieldTags[i] in tags
    ensures forall t :: t in tags ==> exists i :: 0 <= i < FieldCount && FieldTags[i] == t
  {
    set i | 0 <= i < FieldCount :: FieldTags[i]
  }

  // ---------------------------------------------------------------------------
  // Field values and records
  // ---------------------------------------------------------------------------

  datatype Value = Str(s: string) | Int(i: int) | Bool(b: bool)

  function KindOf(v: Value): Kind
  {
    match v
    case Str(_) => KString
    case Int(_) => KInt
    case Bool(_) => KBool
  }

  /** Go's zero value of a kind. */
  function Zero(k: Kind): (v: Value)
    ensures KindOf(v) == k
  {
    match k
    case KString => Str("")
    case KInt => Int(0)
    case KBool => Bool(false)
  }

  /** A `Data` value: one value per field, each of the field's kind. */
  predicate WellTyped(r: seq<Value>)
  {
    |r| == FieldCount && forall i :: 0 <= i < |r| ==> KindOf(r[i]) == FieldKind(i)
  }

  /** `v.Field(i).Set…`: one field replaced, the others kept; a value of the
      field's own kind keeps the record well typed. */
  function SetField(r: seq<Value>, i: nat, v: Value): (r': seq<Value>)
    requires i < |r|
    ensures |r'| == |r| && r'[i] == v
    ensures forall j :: 0 <= j < |r| && j != i ==> r'[j] == r[j]
    ensures WellTyped(r) && KindOf(v) == FieldKind(i) ==> WellTyped(r')
  {
    r[i := v]
  }

  /** `reflect.Value.String()`: the text of a string, "<T Value>" for other kinds. */
  function ValueString(v: Value): string
  {
    match v
    case Str(s) => s
    case Int(_) => "<int Value>"
    case Bool(_) => "<bool Value>"
  }

  function StrAt(r: seq<Value>, i: nat): string
  {
    if i < |r| && r[i].Str? then r[i].s else ""
  }

  function IntAt(r: seq<Value>, i: nat): int
  {
    if i < |r| && r[i].Int? then r[i].i else 0
  }

  function BoolAt(r: seq<Value>, i: nat): bool
  {
    i < |r| && r[i].Bool? && r[i].b
  }

  function Date(r: seq<Value>): string { StrAt(r, DateIdx) }
  function RowNumber(r: seq<Value>): int { IntAt(r, RowNumberIdx) }
  function Search(r: seq<Value>): string { StrAt(r, SearchIdx) }
  function IsMerged(r: seq<Value>): bool { BoolAt(r, IsMergedIdx) }
  function Link(r: seq<Value>): string { StrAt(r, LinkIdx) }
  function Sum(r: seq<Value>): int { IntAt(r, SumIdx) }

  /** The primary key (Date, RowNumber) of a record. */
  function Key(r: seq<Value>): (string, int)
  {
    (Date(r), RowNumber(r))
  }

  /** `&db.Data{Date: date, RowNumber: rowNumber, IsMerged: merged}`: the
      three given fields set, every other field at its zero value. */
  function NewRecord(date: string, rowNumber: int, merged: bool): (r: seq<Value>)
    ensures WellTyped(r)
    ensures Key(r) == (date, rowNumber) && IsMerged(r) == merged
    ensures forall i :: 0 <= i < |r| && i != DateIdx && i != RowNumberIdx && i != IsMergedIdx ==> r[i] == Zero(FieldKind(i))
  {
    seq(FieldCount, i requires 0 <= i < FieldCount =>
      if i == DateIdx then Str(date)
      else if i == RowNumberIdx then Int(rowNumber)
      else if i == IsMergedIdx then Bool(merged)
      else Zero(FieldKind(i)))
  }

  // ---------------------------------------------------------------------------
  // Facts about the table
  // ---------------------------------------------------------------------------

  /** Date, RowNumber, Search and IsMerged carry no tag; every other field does. */
  lemma Tagged4()
    ensures forall i :: 4 <= i < 12 ==> FieldTags[i] != ""
  {
  }

  lemma Tagged12()
    ensures forall i :: 12 <= i < 20 ==> FieldTags[i] != ""
  {
  }

  lemma Tagged20()
    ensures forall i :: 20 <= i < 28 ==> FieldTags[i] != ""
  {
  }

  lemma Tagged28()
    ensures forall i :: 28 <= i < 38 ==> FieldTags[i] != ""
  {
  }

  lemma UntaggedFields()
    ensures forall i :: 0 <= i < FieldCount ==> (FieldTags[i] == "" <==> i < 4)
    ensures FieldNames[DateIdx] == "Date" && FieldNames[RowNumberIdx] == "RowNumber"
    ensures FieldNames[SearchIdx] == "Search" && FieldNames[IsMergedIdx] == "IsMerged"
  {
    Tagged4();
    Tagged12();
    Tagged20();
    Tagged28();
  }

  lemma TagsDistinct4()
    ensures forall i, j :: 4 <= i < 12 && i < j < FieldCount ==> FieldTags[i] != FieldTags[j]
  {
  }

  lemma TagsDistinct12()
    ensures forall i, j :: 12 <= i < 20 && i < j < FieldCount ==> FieldTags[i] != FieldTags[j]
  {
  }

  lemma TagsDistinct20()
    ensures forall i, j :: 20 <= i < 28 && i < j < FieldCount ==> FieldTags[i] != FieldTags[j]
  {
  }

  lemma TagsDistinct28()
    ensures forall i, j :: 28 <= i < 38 && i < j < FieldCount ==> FieldTags[i] != FieldTags[j]
  {
  }

  /** No two tagged fields share a tag, so a header name selects at most one field. */
  lemma TagsDistinct()
    ensures forall i, j :: 4 <= i < j < FieldCount ==> FieldTags[i] != FieldTags[j]
  {
    TagsDistinct4();
    TagsDistinct12();
    TagsDistinct20();
    TagsDistinct28();
  }

  /** Sum is the only `int` field with a tag; the other tagged fields are strings;
      the only `bool` field is IsMerged. */
  lemma FieldKindFacts()
    ensures forall i :: 4 <= i < FieldCount ==> (FieldKind(i) == KInt <==> i == SumIdx)
    ensures forall i :: 4 <= i < FieldCount && i != SumIdx ==> FieldKind(i) == KString
    ensures forall i :: 0 <= i < FieldCount ==> (FieldKind(i) == KBool <==> i == IsMergedIdx)
  {
  }

  lemma TypeName0()
    ensures forall i :: 0 <= i < 19 ==> FieldNames[i] != "Type"
  {
  }

  lemma TypeName19()
    ensures forall i :: 19 <= i < 38 && i != TypeIdx ==> FieldNames[i] != "Type"
  {
  }

  /** Type is the only field of that name, so the upper-casing applies to it alone. */
  lemma TypeNameUnique()
    ensures forall i :: 0 <= i < FieldCount ==> (FieldNames[i] == "Type" <==> i == TypeIdx)
  {
    TypeName0();
    TypeName19();
  }

  /** The headers the pipeline reads by name. */
  lemma NamedHeaders()
    ensures FieldNames[LinkIdx] == "Link" && FieldTags[LinkIdx] == LinkHeader && FieldKind(LinkIdx) == KString
    ensures FieldNames[SumIdx] == "Sum" && FieldTags[SumIdx] == SumHeader && FieldKind(SumIdx) == KInt
    ensures FieldNames[TypeIdx] == "Type" && FieldTags[TypeIdx] == "Тип" && FieldKind(TypeIdx) == KString
    ensures FieldNames[InscriptionIdx] == "Inscription" && FieldTags[InscriptionIdx] == "Надпись"
    ensures FieldNames[InscriptionBraceletIdx] == "InscriptionBracelet" && FieldTags[InscriptionBraceletIdx] == "Браслет надпись"
    ensures PrimaryKeys == [FieldNames[DateIdx], FieldNames[RowNumberIdx]]
  {
  }
}
