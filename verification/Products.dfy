// The product table and its readers (src/config/products.ts), and the options
// the previews offer (roomToWrite.ts, postcardSizes.ts, certifiedMail.ts) with
// the prices published for them (src/api/capabilitiesApi.ts).
module Products {
  import opened Wrappers
  import opened Settings

  const ROOM_TO_WRITE_FLAG := "LETTER_IRL_ROOM_TO_WRITE_ENABLED"
  const POSTCARD_SIZES_FLAG := "LETTER_IRL_POSTCARD_SIZES_ENABLED"
  const CERTIFIED_MAIL_FLAG := "LETTER_IRL_CERTIFIED_MAIL_ENABLED"
  const MAX_LETTER_PAGES := 3

  // A mail option as a caller states it; a stored text may name anything.
  datatype MailOption = MailOption(
    mailType: string, pages: Option<int>, postcardSize: Option<string>, mailService: Option<string>)

  datatype Pack = Pack(productCode: string, credits: nat, priceEnv: string, expectedAmountCents: nat)

  datatype Jit = Jit(
    productCode: string, sells: MailOption, enabledBy: Option<string>, priceEnv: string, expectedAmountCents: nat)

  function LetterOf(pages: int): MailOption {
    MailOption("letter", Some(pages), None, None)
  }

  function PostcardOf(size: string): MailOption {
    MailOption("postcard", None, Some(size), None)
  }

  function LetterBy(service: string): MailOption {
    MailOption("letter", None, None, Some(service))
  }

  const PACK_PRODUCTS: seq<Pack> := [
    Pack("credit-pack-4", 4, "STRIPE_PRICE_STARTER", 500),
    Pack("credit-pack-10", 10, "STRIPE_PRICE_REGULAR", 1000),
    Pack("credit-pack-100", 100, "STRIPE_PRICE_POWER", 9000)
  ]

  const JIT_PRODUCTS: seq<Jit> := [
    Jit("jit-letter", LetterOf(1), None, "STRIPE_JIT_LETTER_PRICE_ID", 499),
    Jit("jit-postcard", PostcardOf("6x9"), None, "STRIPE_JIT_POSTCARD_PRICE_ID", 499),
    Jit("jit-letter-2-pages", LetterOf(2), Some(ROOM_TO_WRITE_FLAG), "STRIPE_JIT_LETTER_TWO_PAGES_PRICE_ID", 599),
    Jit("jit-letter-3-pages", LetterOf(3), Some(ROOM_TO_WRITE_FLAG), "STRIPE_JIT_LETTER_THREE_PAGES_PRICE_ID", 699),
    Jit("jit-postcard-4x6", PostcardOf("6x4"), Some(POSTCARD_SIZES_FLAG), "STRIPE_JIT_POSTCARD_4X6_PRICE_ID", 399),
    Jit("jit-postcard-11x6", PostcardOf("6x11"), Some(POSTCARD_SIZES_FLAG), "STRIPE_JIT_POSTCARD_11X6_PRICE_ID", 599),
    Jit("jit-letter-certified", LetterBy("certified"), Some(CERTIFIED_MAIL_FLAG),
        "STRIPE_JIT_LETTER_CERTIFIED_PRICE_ID", 1199),
    Jit("jit-letter-certified-receipt", LetterBy("certified_return_receipt"), Some(CERTIFIED_MAIL_FLAG),
        "STRIPE_JIT_LETTER_CERTIFIED_RECEIPT_PRICE_ID", 1499)
  ]

  // ---- The configured rows -----------------------------------------------------

  datatype Group = PackGroup | JitGroup

  // The credential stands for its digest.
  datatype Row = Row(
    credential: Option<string>, productCode: string, group: Group, priceId: string,
    expectedAmountCents: nat, expectedCurrency: string)

  function NormalizedCurrency(value: string, fallback: string): string {
    var trimmed := Lower(Trim(value));
    if trimmed == "" then fallback else trimmed
  }

  function PackCurrency(env: Env): string {
    NormalizedCurrency(Get(env, "STRIPE_CURRENCY"), "usd")
  }

  function JitCurrency(env: Env): string {
    NormalizedCurrency(Get(env, "JIT_CURRENCY"), PackCurrency(env))
  }

  function Credential(env: Env): Option<string> {
    var key := Trim(Get(env, "STRIPE_SECRET_KEY"));
    if key == "" then None else Some(key)
  }

  function ConfiguredRow(code: string, priceEnv: string, cents: nat, group: Group, currency: string, env: Env): Row {
    Row(Credential(env), code, group, Trim(Get(env, priceEnv)), cents, currency)
  }

  function PackRow(p: Pack, env: Env): Row {
    ConfiguredRow(p.productCode, p.priceEnv, p.expectedAmountCents, PackGroup, PackCurrency(env), env)
  }

  function JitRow(p: Jit, env: Env): Row {
    ConfiguredRow(p.productCode, p.priceEnv, p.expectedAmountCents, JitGroup, JitCurrency(env), env)
  }

  predicate IsJitPurchaseEnabled(env: Env) {
    Get(env, "JIT_PURCHASE_ENABLED") == "true"
  }

  predicate IsJitProductSold(p: Jit, env: Env) {
    p.enabledBy.Some? ==> Enabled(env, p.enabledBy.value)
  }

  function PackRows(packs: seq<Pack>, env: Env): seq<Row> {
    if packs == [] then [] else [PackRow(packs[0], env)] + PackRows(packs[1..], env)
  }

  function SoldRows(jits: seq<Jit>, env: Env): seq<Row> {
    if jits == [] then []
    else (if IsJitProductSold(jits[0], env) then [JitRow(jits[0], env)] else []) + SoldRows(jits[1..], env)
  }

  function GetConfiguredProducts(env: Env): seq<Row> {
    PackRows(PACK_PRODUCTS, env) + if IsJitPurchaseEnabled(env) then SoldRows(JIT_PRODUCTS, env) else []
  }

  function FindPack(packs: seq<Pack>, code: string): (r: Option<Pack>)
    ensures r.Some? ==> r.value in packs && r.value.productCode == code
    ensures r.None? ==> forall p :: p in packs ==> p.productCode != code
  {
    if packs == [] then None else if packs[0].productCode == code then Some(packs[0]) else FindPack(packs[1..], code)
  }

  function FindJit(jits: seq<Jit>, code: string): (r: Option<Jit>)
    ensures r.Some? ==> r.value in jits && r.value.productCode == code
    ensures r.None? ==> forall p :: p in jits ==> p.productCode != code
  {
    if jits == [] then None else if jits[0].productCode == code then Some(jits[0]) else FindJit(jits[1..], code)
  }

  function GetConfiguredProduct(env: Env, code: string): Option<Row> {
    var pack := FindPack(PACK_PRODUCTS, code);
    if pack.Some? then Some(PackRow(pack.value, env))
    else if !IsJitPurchaseEnabled(env) then None
    else
      var jit := FindJit(JIT_PRODUCTS, code);
      if jit.None? || !IsJitProductSold(jit.value, env) then None else Some(JitRow(jit.value, env))
  }

  predicate IsConfiguredProductCode(env: Env, code: string) {
    if exists p :: p in PACK_PRODUCTS && p.productCode == code then true
    else if !IsJitPurchaseEnabled(env) then false
    else exists p :: p in JIT_PRODUCTS && p.productCode == code && IsJitProductSold(p, env)
  }

  // The rows that carry a code, wherever they stand.
  function RowsOf(rows: seq<Row>, code: string): seq<Row> {
    if rows == [] then [] else (if rows[0].productCode == code then [rows[0]] else []) + RowsOf(rows[1..], code)
  }

  // No two products share a code.
  ghost predicate OneRowPerPack(packs: seq<Pack>) {
    packs == [] ||
    ((forall p :: p in packs[1..] ==> p.productCode != packs[0].productCode) && OneRowPerPack(packs[1..]))
  }

  ghost predicate OneRowPerJit(jits: seq<Jit>) {
    jits == [] || ((forall p :: p in jits[1..] ==> p.productCode != jits[0].productCode) && OneRowPerJit(jits[1..]))
  }

  lemma {:induction false} RowsOfSplit(a: seq<Row>, b: seq<Row>, code: string)
    ensures RowsOf(a + b, code) == RowsOf(a, code) + RowsOf(b, code)
  {
    if a == [] {
      assert a + b == b;
    } else {
      RowsOfSplit(a[1..], b, code);
      assert (a + b)[1..] == a[1..] + b;
      var head := if a[0].productCode == code then [a[0]] else [];
      assert head + (RowsOf(a[1..], code) + RowsOf(b, code)) == (head + RowsOf(a[1..], code)) + RowsOf(b, code);
    }
  }

  lemma {:induction false} PackRowsOf(packs: seq<Pack>, env: Env, code: string)
    requires OneRowPerPack(packs)
    ensures var pack := FindPack(packs, code);
      RowsOf(PackRows(packs, env), code) == if pack.Some? then [PackRow(pack.value, env)] else []
  {
    if packs != [] {
      PackRowsOf(packs[1..], env, code);
      RowsOfSplit([PackRow(packs[0], env)], PackRows(packs[1..], env), code);
    }
  }

  lemma {:induction false} SoldRowsOf(jits: seq<Jit>, env: Env, code: string)
    requires OneRowPerJit(jits)
    ensures var jit := FindJit(jits, code);
      RowsOf(SoldRows(jits, env), code)
      == if jit.Some? && IsJitProductSold(jit.value, env) then [JitRow(jit.value, env)] else []
  {
    if jits != [] {
      SoldRowsOf(jits[1..], env, code);
      var rest := SoldRows(jits[1..], env);
      if IsJitProductSold(jits[0], env) {
        RowsOfSplit([JitRow(jits[0], env)], rest, code);
      } else {
        assert [] + rest == rest;
      }
    }
  }

  lemma {:induction false} OnlyOneIsSold(jits: seq<Jit>, env: Env, code: string)
    requires OneRowPerJit(jits)
    ensures var jit := FindJit(jits, code);
      (exists p :: p in jits && p.productCode == code && IsJitProductSold(p, env))
      <==> jit.Some? && IsJitProductSold(jit.value, env)
  {
    if jits != [] {
      OnlyOneIsSold(jits[1..], env, code);
      assert forall p :: p in jits ==> p == jits[0] || p in jits[1..];
    }
  }

  lemma {:induction false} PairwiseIsOneRow(packs: seq<Pack>, jits: seq<Jit>)
    ensures (forall i, j :: 0 <= i < j < |packs| ==> packs[i].productCode != packs[j].productCode)
      ==> OneRowPerPack(packs)
    ensures (forall i, j :: 0 <= i < j < |jits| ==> jits[i].productCode != jits[j].productCode) ==> OneRowPerJit(jits)
  {
    if packs != [] {
      PairwiseIsOneRow(packs[1..], jits);
    } else if jits != [] {
      PairwiseIsOneRow(packs, jits[1..]);
    }
  }

  lemma {:induction false} JitCodesDiffer()
    ensures OneRowPerJit(JIT_PRODUCTS)
  {
    forall i, j | 0 <= i < j < |JIT_PRODUCTS| ensures JIT_PRODUCTS[i].productCode != JIT_PRODUCTS[j].productCode {
      if |JIT_PRODUCTS[i].productCode| == |JIT_PRODUCTS[j].productCode| {
        assert JIT_PRODUCTS[i].productCode[11] != JIT_PRODUCTS[j].productCode[11];
      }
    }
    PairwiseIsOneRow([], JIT_PRODUCTS);
  }

  lemma {:induction false} PackCodesDiffer()
    ensures OneRowPerPack(PACK_PRODUCTS)
  {
    PairwiseIsOneRow(PACK_PRODUCTS, []);
  }

  lemma {:induction false} PacksAreNotJits(p: Pack, q: Jit)
    requires p in PACK_PRODUCTS && q in JIT_PRODUCTS
    ensures p.productCode != q.productCode
  {
    assert p.productCode[0] == 'c' && q.productCode[0] == 'j';
  }

  lemma {:induction false} RowsOfConfigured(env: Env, code: string)
    ensures RowsOf(GetConfiguredProducts(env), code)
         == RowsOf(PackRows(PACK_PRODUCTS, env), code)
            + if IsJitPurchaseEnabled(env) then RowsOf(SoldRows(JIT_PRODUCTS, env), code) else []
  {
    RowsOfSplit(PackRows(PACK_PRODUCTS, env),
                if IsJitPurchaseEnabled(env) then SoldRows(JIT_PRODUCTS, env) else [], code);
  }

  lemma {:induction false} SingleRowIsTheTables(env: Env, code: string)
    ensures var row := GetConfiguredProduct(env, code);
      RowsOf(GetConfiguredProducts(env), code) == if row.Some? then [row.value] else []
  {
    JitCodesDiffer();
    PackCodesDiffer();
    PackRowsOf(PACK_PRODUCTS, env, code);
    SoldRowsOf(JIT_PRODUCTS, env, code);
    RowsOfConfigured(env, code);
    var pack, jit := FindPack(PACK_PRODUCTS, code), FindJit(JIT_PRODUCTS, code);
    if pack.Some? && jit.Some? { PacksAreNotJits(pack.value, jit.value); }
  }

  lemma {:induction false} RowIffSold(env: Env, code: string)
    ensures GetConfiguredProduct(env, code).Some? <==> IsConfiguredProductCode(env, code)
  {
    JitCodesDiffer();
    OnlyOneIsSold(JIT_PRODUCTS, env, code);
  }

  // One product's row is the one row with its code in the full table, and there
  // is none exactly when the code is not one this deployment sells.
  lemma {:induction false} SingleRowAgrees(env: Env, code: string)
    ensures var row := GetConfiguredProduct(env, code);
      && RowsOf(GetConfiguredProducts(env), code) == (if row.Some? then [row.value] else [])
      && (row.Some? <==> IsConfiguredProductCode(env, code))
  {
    SingleRowIsTheTables(env, code);
    RowIffSold(env, code);
  }

  // Pay & Send prices are in its own currency, else the store's, else dollars.
  lemma {:induction false} CurrencyFallsBack(env: Env)
    ensures var own := Trim(Get(env, "JIT_CURRENCY"));
      var store := Trim(Get(env, "STRIPE_CURRENCY"));
      && PackCurrency(env) == (if store != "" then Lower(store) else "usd")
      && JitCurrency(env) == if own != "" then Lower(own) else if store != "" then Lower(store) else "usd"
  {
  }

  // A row as the configuration gives it, in this currency.
  predicate IsRowOf(row: Row, code: string, group: Group, priceEnv: string, cents: nat, currency: string, env: Env) {
    && row.productCode == code && row.group == group && row.expectedAmountCents == cents
    && row.priceId == Trim(Get(env, priceEnv)) && row.expectedCurrency == currency
    && (row.credential.None? <==> Trim(Get(env, "STRIPE_SECRET_KEY")) == "")
    && (row.credential.Some? ==> row.credential.value == Trim(Get(env, "STRIPE_SECRET_KEY")))
  }

  predicate IsPackRow(row: Row, p: Pack, env: Env) {
    IsRowOf(row, p.productCode, PackGroup, p.priceEnv, p.expectedAmountCents, PackCurrency(env), env)
  }

  predicate IsSoldRow(row: Row, p: Jit, env: Env) {
    && (p.enabledBy.Some? ==> Enabled(env, p.enabledBy.value))
    && IsRowOf(row, p.productCode, JitGroup, p.priceEnv, p.expectedAmountCents, JitCurrency(env), env)
  }

  lemma {:induction false} RowIsAsConfigured(row: Row, p: Pack, q: Jit, env: Env)
    ensures IsPackRow(row, p, env) <==> row == PackRow(p, env)
    ensures IsSoldRow(row, q, env) <==> IsJitProductSold(q, env) && row == JitRow(q, env)
  {
  }

  lemma {:induction false} PackRowsAre(packs: seq<Pack>, env: Env, row: Row)
    ensures row in PackRows(packs, env) <==> exists p :: p in packs && IsPackRow(row, p, env)
  {
    if packs != [] {
      PackRowsAre(packs[1..], env, row);
      assert forall p :: p in packs <==> p == packs[0] || p in packs[1..];
      RowIsAsConfigured(row, packs[0], JIT_PRODUCTS[0], env);
    }
  }

  lemma {:induction false} SoldRowsAre(jits: seq<Jit>, env: Env, row: Row)
    ensures row in SoldRows(jits, env) <==> exists p :: p in jits && IsSoldRow(row, p, env)
  {
    if jits != [] {
      SoldRowsAre(jits[1..], env, row);
      RowIsAsConfigured(row, PACK_PRODUCTS[0], jits[0], env);
      assert forall p :: p in jits <==> p == jits[0] || p in jits[1..];
    }
  }

  // The table holds a row for every pack, and for every Pay & Send product that is
  // sold while Pay & Send is on, and no other.
  lemma {:induction false} ConfiguredExactly(env: Env, row: Row)
    ensures row in GetConfiguredProducts(env)
       <==> (|| (exists p :: p in PACK_PRODUCTS && IsPackRow(row, p, env))
             || (Get(env, "JIT_PURCHASE_ENABLED") == "true" && exists p :: p in JIT_PRODUCTS && IsSoldRow(row, p, env)))
  {
    PackRowsAre(PACK_PRODUCTS, env, row);
    SoldRowsAre(JIT_PRODUCTS, env, row);
  }

  // ---- The product an option is sold through ---------------------------------

  function MailServiceOf(value: Option<string>): Option<string> {
    if value == None || value == Some("") || value == Some("standard") then None else value
  }

  function OrElse<T>(value: Option<T>, fallback: T): T {
    if value.Some? then value.value else fallback
  }

  predicate SellsOption(candidate: MailOption, mailType: string, option: MailOption) {
    var service := OrElse(option.mailService, "standard");
    && candidate.mailType == mailType
    && if mailType == "postcard" then
         service == "standard" && candidate.postcardSize == Some(OrElse(option.postcardSize, "6x9"))
       else if service == "standard" then
         candidate.mailService.None? && candidate.pages == Some(OrElse(option.pages, 1))
       else
         candidate.mailService == Some(service)
  }

  function FirstSelling(jits: seq<Jit>, mailType: string, option: MailOption): Option<Jit> {
    if jits == [] then None
    else if SellsOption(jits[0].sells, mailType, option) then Some(jits[0])
    else FirstSelling(jits[1..], mailType, option)
  }

  function JitProductMatching(option: MailOption): Option<Jit> {
    var mailType :=
      if exists p :: p in JIT_PRODUCTS && p.sells.mailType == option.mailType then option.mailType
      else JIT_PRODUCTS[0].sells.mailType;
    FirstSelling(JIT_PRODUCTS, mailType, option)
  }

  function JitProductFor(option: MailOption, env: Env): Option<Jit> {
    var product := JitProductMatching(option);
    if product.Some? && IsJitProductSold(product.value, env) then product else None
  }

  // What an option asks for, with the defaults filled in.
  datatype Mail = Pages(pages: int) | Service(service: string) | Size(size: string) | CertifiedPostcard

  function Asks(option: MailOption): Mail {
    var service := OrElse(option.mailService, "standard");
    if option.mailType == "postcard" then
      if service == "standard" then Size(OrElse(option.postcardSize, "6x9")) else CertifiedPostcard
    else if service == "standard" then Pages(OrElse(option.pages, 1)) else Service(service)
  }

  lemma {:induction false} FirstIsFound(jits: seq<Jit>, mailType: string, option: MailOption)
    ensures var found := FirstSelling(jits, mailType, option);
      && (found.Some? ==> found.value in jits && SellsOption(found.value.sells, mailType, option))
      && (found.None? ==> forall p :: p in jits ==> !SellsOption(p.sells, mailType, option))
  {
    if jits != [] {
      FirstIsFound(jits[1..], mailType, option);
      assert forall p :: p in jits ==> p == jits[0] || p in jits[1..];
    }
  }

  // What each product sells, told apart without text.
  lemma {:induction false} KnownProduct(p: Jit) returns (i: nat)
    requires p in JIT_PRODUCTS
    ensures i < 8 && p == JIT_PRODUCTS[i]
  {
    i :| i < |JIT_PRODUCTS| && JIT_PRODUCTS[i] == p;
  }

  // A number that tells the mail of any two products apart.
  function Tag(m: Mail): int {
    match m
    case Pages(pages) => pages
    case Service(service) => 10 + |service|
    case Size(size) => 100 + |size| + if |size| == 3 then size[2] as int else 0
    case CertifiedPostcard => 0
  }

  function ProductTag(i: nat): int
    requires i < 8
  {
    match i
    case 0 => 1
    case 1 => 160
    case 2 => 2
    case 3 => 3
    case 4 => 155
    case 5 => 104
    case 6 => 19
    case _ => 34
  }

  lemma {:induction false} TagOf(i: nat)
    requires i < 8
    ensures Tag(Asks(JIT_PRODUCTS[i].sells)) == ProductTag(i)
  {
  }

  lemma {:induction false} PlacesSellDifferently(i: nat, j: nat)
    requires i < 8 && j < 8 && Asks(JIT_PRODUCTS[i].sells) == Asks(JIT_PRODUCTS[j].sells)
    ensures i == j
  {
    TagOf(i);
    TagOf(j);
  }

  lemma {:induction false} ProductsSellDifferently(p: Jit, q: Jit)
    requires p in JIT_PRODUCTS && q in JIT_PRODUCTS && Asks(p.sells) == Asks(q.sells)
    ensures p == q
  {
    var i := KnownProduct(p);
    var j := KnownProduct(q);
    PlacesSellDifferently(i, j);
  }

  lemma {:induction false} LettersAndPostcards(mailType: string)
    ensures (exists p :: p in JIT_PRODUCTS && p.sells.mailType == mailType) <==> mailType in {"letter", "postcard"}
  {
    assert JIT_PRODUCTS[0] in JIT_PRODUCTS && JIT_PRODUCTS[1] in JIT_PRODUCTS;
    forall p | p in JIT_PRODUCTS ensures p.sells.mailType in {"letter", "postcard"} {
      var i := KnownProduct(p);
    }
  }

  lemma {:induction false} SellsWhatIsAsked(p: Jit, option: MailOption)
    requires p in JIT_PRODUCTS
    ensures SellsOption(p.sells, if option.mailType == "postcard" then "postcard" else "letter", option)
       <==> Asks(p.sells) == Asks(option)
  {
    var i := KnownProduct(p);
    assert "letter"[0] != "postcard"[0];
    assert "standard"[0] != "certified"[0] && "standard"[0] != "certified_return_receipt"[0];
  }

  // An option's product is the one that sells exactly what the option asks for:
  // its pages, its size and its service.
  lemma {:induction false} MatchIsExact(option: MailOption, p: Jit)
    ensures JitProductMatching(option) == Some(p) <==> p in JIT_PRODUCTS && Asks(p.sells) == Asks(option)
  {
    var mailType := if option.mailType == "postcard" then "postcard" else "letter";
    LettersAndPostcards(option.mailType);
    assert JitProductMatching(option) == FirstSelling(JIT_PRODUCTS, mailType, option);
    FirstIsFound(JIT_PRODUCTS, mailType, option);
    var found := FirstSelling(JIT_PRODUCTS, mailType, option);
    if found.Some? { SellsWhatIsAsked(found.value, option); }
    if p in JIT_PRODUCTS {
      SellsWhatIsAsked(p, option);
      if found.Some? && Asks(p.sells) == Asks(option) { ProductsSellDifferently(found.value, p); }
    }
  }

  const SOLD_SERVICES: set<Option<string>> := {None, Some("certified"), Some("certified_return_receipt")}

  lemma {:induction false} ServicesSold(p: Jit)
    requires p in JIT_PRODUCTS
    ensures p.sells.mailService in SOLD_SERVICES
  {
    var i := KnownProduct(p);
  }

  lemma {:induction false} SameMailSameService(p: Jit, option: MailOption, stored: Option<string>)
    requires p in JIT_PRODUCTS && Asks(p.sells) == Asks(option) && option.mailService == MailServiceOf(stored)
    ensures p.sells.mailService == option.mailService
  {
    var i := KnownProduct(p);
  }

  // A stored service this code does not know is sold by nothing, and priced as
  // standard by nothing: a product pays for the service the stored text names.
  lemma {:induction false} StoredServiceFailsClosed(stored: Option<string>, option: MailOption)
    requires option.mailService == MailServiceOf(stored)
    ensures var product := JitProductMatching(option);
      product.Some? ==>
        && stored in {None, Some(""), Some("standard"), Some("certified"), Some("certified_return_receipt")}
        && product.value.sells.mailService == if stored in {None, Some(""), Some("standard")} then None else stored
  {
    var product := JitProductMatching(option);
    if product.Some? {
      MatchIsExact(option, product.value);
      SameMailSameService(product.value, option, stored);
      ServicesSold(product.value);
    }
  }

  // ---- The options the previews offer ------------------------------------------

  predicate DrawsPdf(env: Env) {
    Lower(Trim(Get(env, "LETTER_IRL_PRINT_RENDERER"))) == "pdf"
  }

  predicate IsRoomToWriteOffered(env: Env) {
    Enabled(env, ROOM_TO_WRITE_FLAG) && DrawsPdf(env) && IsJitPurchaseEnabled(env)
  }

  function LetterPageLimit(env: Env): int {
    if IsRoomToWriteOffered(env) then MAX_LETTER_PAGES else 1
  }

  predicate IsPostcardSizesOffered(env: Env) {
    Enabled(env, POSTCARD_SIZES_FLAG) && DrawsPdf(env) && IsJitPurchaseEnabled(env)
  }

  function OfferedPostcardSizes(env: Env): seq<string> {
    if IsPostcardSizesOffered(env) then ["6x9", "6x4", "6x11"] else ["6x9"]
  }

  predicate IsCertifiedMailOffered(env: Env) {
    Enabled(env, CERTIFIED_MAIL_FLAG) && IsJitPurchaseEnabled(env)
  }

  // The mail a preview can lay out here.
  predicate Offered(option: MailOption, env: Env) {
    if option.mailType == "postcard" then
      option.pages.None? && option.mailService.None?
      && option.postcardSize.Some? && option.postcardSize.value in OfferedPostcardSizes(env)
    else
      && option.mailType == "letter" && option.postcardSize.None?
      && option.pages.Some? && 1 <= option.pages.value <= LetterPageLimit(env)
      && (option.mailService.None?
          || (option.mailService.value in {"certified", "certified_return_receipt"} && IsCertifiedMailOffered(env)))
  }

  // The options beyond the plain ones need their flag, the program's own renderer and
  // Pay & Send.
  predicate LaidOutHere(env: Env, flag: string) {
    && Enabled(env, flag) && Lower(Trim(Get(env, "LETTER_IRL_PRINT_RENDERER"))) == "pdf"
    && Get(env, "JIT_PURCHASE_ENABLED") == "true"
  }

  lemma {:induction false} OfferedExactly(option: MailOption, env: Env)
    ensures Offered(option, env) <==>
      || (&& option.mailType == "letter" && option.postcardSize.None? && option.pages.Some?
          && (option.pages.value == 1
              || (option.pages.value in {2, 3} && LaidOutHere(env, "LETTER_IRL_ROOM_TO_WRITE_ENABLED")))
          && (option.mailService.None?
              || (option.mailService.value in {"certified", "certified_return_receipt"}
                  && Enabled(env, "LETTER_IRL_CERTIFIED_MAIL_ENABLED") && Get(env, "JIT_PURCHASE_ENABLED") == "true")))
      || (&& option.mailType == "postcard" && option.pages.None? && option.mailService.None?
          && (option.postcardSize == Some("6x9")
              || (option.postcardSize in {Some("6x4"), Some("6x11")}
                  && LaidOutHere(env, "LETTER_IRL_POSTCARD_SIZES_ENABLED"))))
  {
    assert "letter"[0] != "postcard"[0];
  }

  // ---- The prices published for them ---------------------------------------------

  predicate IsPayAndSendPriceOffered(p: Jit, env: Env) {
    if !IsJitPurchaseEnabled(env) || !IsJitProductSold(p, env) then false
    else if p.sells.mailService.Some? then IsCertifiedMailOffered(env)
    else if p.sells.mailType == "letter" then OrElse(p.sells.pages, 1) == 1 || IsRoomToWriteOffered(env)
    else OrElse(p.sells.postcardSize, "6x9") in OfferedPostcardSizes(env)
  }

  datatype PublishedPrice = PublishedPrice(product: Jit, amountMinor: nat, currency: string)

  function Published(jits: seq<Jit>, env: Env): seq<PublishedPrice> {
    if jits == [] then []
    else (if IsPayAndSendPriceOffered(jits[0], env)
          then [PublishedPrice(jits[0], jits[0].expectedAmountCents, JitCurrency(env))] else [])
         + Published(jits[1..], env)
  }

  function PayAndSendPrices(env: Env): seq<PublishedPrice> {
    if IsJitPurchaseEnabled(env) then Published(JIT_PRODUCTS, env) else []
  }

  lemma {:induction false} PublishedAre(jits: seq<Jit>, env: Env, price: PublishedPrice)
    ensures price in Published(jits, env)
       <==> (price.product in jits && IsPayAndSendPriceOffered(price.product, env)
             && price.amountMinor == price.product.expectedAmountCents && price.currency == JitCurrency(env))
  {
    if jits != [] {
      PublishedAre(jits[1..], env, price);
      assert price.product in jits <==> price.product == jits[0] || price.product in jits[1..];
    }
  }

  // The option a preview states for what a product sells.
  function Statement(p: Jit): MailOption {
    if p.sells.mailService.Some? then p.sells.(pages := Some(1)) else p.sells
  }

  lemma {:induction false} StatementAsksTheSame(p: Jit)
    requires p in JIT_PRODUCTS
    ensures JitProductMatching(Statement(p)) == Some(p)
  {
    var i := KnownProduct(p);
    assert Asks(p.sells) == Asks(Statement(p));
    MatchIsExact(Statement(p), p);
  }

  lemma {:induction false} PublishedIsOffered(p: Jit, env: Env)
    requires p in JIT_PRODUCTS && IsPayAndSendPriceOffered(p, env)
    ensures Offered(Statement(p), env)
  {
    var i := KnownProduct(p);
  }

  // The product of an offered option, by what it asks for.
  function ProductAsked(m: Mail): nat {
    match m
    case Pages(n) => if n == 2 then 2 else if n == 3 then 3 else 0
    case Size(s) => if s == "6x4" then 4 else if s == "6x11" then 5 else 1
    case Service(s) => if s == "certified" then 6 else 7
    case CertifiedPostcard => 0
  }

  lemma {:induction false} OfferedHasAProduct(option: MailOption, env: Env)
    requires IsJitPurchaseEnabled(env) && Offered(option, env)
    ensures var p := JIT_PRODUCTS[ProductAsked(Asks(option))];
      Asks(p.sells) == Asks(option) && IsPayAndSendPriceOffered(p, env)
  {
    assert "letter"[0] != "postcard"[0];
    assert "standard"[0] != "certified"[0] && "standard"[0] != "certified_return_receipt"[0];
  }

  // Every option a preview offers is sold, at a published price: the one its
  // product's configured row must resolve to.
  lemma {:induction false} OfferedOptionsArePriced(option: MailOption, env: Env)
    requires IsJitPurchaseEnabled(env) && Offered(option, env)
    ensures JitProductFor(option, env).Some?
    ensures var p := JitProductFor(option, env).value;
      && PublishedPrice(p, p.expectedAmountCents, JitCurrency(env)) in PayAndSendPrices(env)
      && GetConfiguredProduct(env, p.productCode).Some?
      && IsSoldRow(GetConfiguredProduct(env, p.productCode).value, p, env)
  {
    var p := JIT_PRODUCTS[ProductAsked(Asks(option))];
    assert p in JIT_PRODUCTS;
    OfferedHasAProduct(option, env);
    MatchIsExact(option, p);
    PublishedAre(JIT_PRODUCTS, env, PublishedPrice(p, p.expectedAmountCents, JitCurrency(env)));
    SoldRowIsConfigured(p, env);
  }

  lemma {:induction false} FoundByItsCode(jits: seq<Jit>, p: Jit)
    requires OneRowPerJit(jits) && p in jits
    ensures FindJit(jits, p.productCode) == Some(p)
  {
    if jits[0] != p { FoundByItsCode(jits[1..], p); }
  }

  lemma {:induction false} SoldRowIsConfigured(p: Jit, env: Env)
    requires p in JIT_PRODUCTS && IsJitPurchaseEnabled(env) && IsJitProductSold(p, env)
    ensures GetConfiguredProduct(env, p.productCode) == Some(JitRow(p, env))
  {
    JitCodesDiffer();
    FoundByItsCode(JIT_PRODUCTS, p);
    var pack := FindPack(PACK_PRODUCTS, p.productCode);
    if pack.Some? { PacksAreNotJits(pack.value, p); }
  }

  // A price is published exactly when some option the previews offer is sold
  // through its product.
  lemma {:induction false} PublishedPricesAreReachable(env: Env, price: PublishedPrice)
    ensures price in PayAndSendPrices(env)
       <==> (IsJitPurchaseEnabled(env)
             && price.amountMinor == price.product.expectedAmountCents && price.currency == JitCurrency(env)
             && exists option :: Offered(option, env) && JitProductFor(option, env) == Some(price.product))
  {
    var p := price.product;
    PublishedAre(JIT_PRODUCTS, env, price);
    if price in PayAndSendPrices(env) {
      PublishedIsOffered(p, env);
      StatementAsksTheSame(p);
      assert JitProductFor(Statement(p), env) == Some(p);
    }
    if IsJitPurchaseEnabled(env) {
      forall option | Offered(option, env) && JitProductFor(option, env) == Some(p)
        ensures p in JIT_PRODUCTS && IsPayAndSendPriceOffered(p, env)
      {
        OfferedOptionsArePriced(option, env);
        PublishedAre(JIT_PRODUCTS, env, PublishedPrice(p, p.expectedAmountCents, JitCurrency(env)));
      }
    }
  }
}
