/**
 * The product form's schema: which `{name, price, categoryId, imageUrl}`
 * values the form accepts, and what it hands to its submit handler.
 */
module ProductForm {
  import opened Common
  import ProductRouter

  const MinNameLength: nat := 3
  const MaxNameLength: nat := 50
  const MinPrice: real := 1000.0

  /** A raw form value as the browser supplies it. */
  datatype FormValue = Missing | Text(s: string) | Number(n: real)

  datatype ProductFormInput = ProductFormInput(name: FormValue, price: FormValue, categoryId: FormValue, imageUrl: FormValue)

  /** What the submit handler receives once the schema accepts the form. */
  datatype ProductFormValues = ProductFormValues(name: string, price: real, categoryId: string, imageUrl: string)

  datatype FormField = NameField | PriceField | CategoryIdField | ImageUrlField

  /**
   * `z.coerce.number()`: a number is kept; text goes through the number
   * parser `parse` (None where the parse gives NaN); a missing value coerces
   * to NaN, which the number check refuses.
   */
  function CoerceNumber(v: FormValue, parse: string -> Option<real>): (r: Option<real>)
    ensures v.Missing? ==> r.None?
    ensures v.Number? ==> r == Some(v.n)
    ensures v.Text? ==> r == parse(v.s)
  {
    match v
    case Missing => None
    case Number(n) => Some(n)
    case Text(s) => parse(s)
  }

  /** `name`: a string of 3 to 50 characters. */
  predicate NameOk(v: FormValue) {
    v.Text? && MinNameLength <= |v.s| <= MaxNameLength
  }

  /** `price`: after coercion, a number of at least 1000. */
  predicate PriceOk(v: FormValue, parse: string -> Option<real>) {
    var n := CoerceNumber(v, parse);
    n.Some? && n.value >= MinPrice
  }

  /** `categoryId`: any string. */
  predicate CategoryIdOk(v: FormValue) {
    v.Text?
  }

  /** `imageUrl`: a string that `isUrl` (zod's `.url()`) accepts. */
  predicate ImageUrlOk(v: FormValue, isUrl: string -> bool) {
    v.Text? && isUrl(v.s)
  }

  /** The fields whose check fails; zod reports them all at once. */
  function FailingFields(input: ProductFormInput, parse: string -> Option<real>, isUrl: string -> bool): set<FormField> {
    (if NameOk(input.name) then {} else {NameField})
    + (if PriceOk(input.price, parse) then {} else {PriceField})
    + (if CategoryIdOk(input.categoryId) then {} else {CategoryIdField})
    + (if ImageUrlOk(input.imageUrl, isUrl) then {} else {ImageUrlField})
  }

  /** `productFormSchema.safeParse`: the parsed values, or the set of fields that failed. */
  function ValidateProductForm(input: ProductFormInput, parse: string -> Option<real>, isUrl: string -> bool)
    : (r: Result<ProductFormValues, set<FormField>>)
    ensures r.Ok? <==>
      NameOk(input.name) && PriceOk(input.price, parse) && CategoryIdOk(input.categoryId) && ImageUrlOk(input.imageUrl, isUrl)
    ensures r.Err? ==> r.error != {}
    ensures r.Err? ==> (NameField in r.error <==> !NameOk(input.name))
    ensures r.Err? ==> (PriceField in r.error <==> !PriceOk(input.price, parse))
    ensures r.Err? ==> (CategoryIdField in r.error <==> !CategoryIdOk(input.categoryId))
    ensures r.Err? ==> (ImageUrlField in r.error <==> !ImageUrlOk(input.imageUrl, isUrl))
    ensures r.Ok? ==>
      && Text(r.value.name) == input.name
      && Some(r.value.price) == CoerceNumber(input.price, parse)
      && Text(r.value.categoryId) == input.categoryId
      && Text(r.value.imageUrl) == input.imageUrl
  {
    var failing := FailingFields(input, parse, isUrl);
    if failing == {} then
      Ok(ProductFormValues(input.name.s, CoerceNumber(input.price, parse).value, input.categoryId.s, input.imageUrl.s))
    else
      Err(failing)
  }

  /**
   * The form is at least as strict as `createProduct`'s input check: values
   * it accepts, with a whole-number price, pass the server's name, price and
   * URL checks.
   */
  lemma AcceptedFormPassesServerCheck(input: ProductFormInput, parse: string -> Option<real>, isUrl: string -> bool, price: int)
    requires ValidateProductForm(input, parse, isUrl).Ok?
    requires ValidateProductForm(input, parse, isUrl).value.price == price as real
    ensures var v := ValidateProductForm(input, parse, isUrl).value;
      ProductRouter.NameAndPriceValid(v.name, price) && isUrl(v.imageUrl)
  {
  }

  /** A name longer than 50 characters passes the server's check but not the form's. */
  lemma LongNameOnlyFormRefuses(name: string, parse: string -> Option<real>, isUrl: string -> bool)
    requires |name| > MaxNameLength
    ensures ProductRouter.NameAndPriceValid(name, 1000)
    ensures var r := ValidateProductForm(ProductFormInput(Text(name), Number(1000.0), Text("c"), Text("u")), parse, isUrl);
      r.Err? && NameField in r.error
  {
  }

  /** A missing price is refused, whatever the other fields hold. */
  lemma MissingPriceRefused(input: ProductFormInput, parse: string -> Option<real>, isUrl: string -> bool)
    requires input.price.Missing?
    ensures var r := ValidateProductForm(input, parse, isUrl); r.Err? && PriceField in r.error
  {
  }
}
