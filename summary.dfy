/** `populateSummary` as data: the review page's three sections of labelled
    lines, each with the step its "Editar" button returns to. */
module Summary {
  import opened Wrappers
  import opened Form

  /** The values `populateSummary` reads from the form. */
  datatype SummaryInput = SummaryInput(
    clientType: string,
    responsible: string,
    cpf: string,
    rg: string,
    storeName: string,
    cnpj: string,
    businessName: string,
    zipCode: string,
    address: string,
    number: string,
    address1: string,
    neighborhood: string,
    city: string,
    state: string,
    paymentDate: string,
    paymentTypeText: string,
    billDateText: string,
    sentTypeText: string,
    financialEmail: string)

  datatype Line = Line(caption: string, value: string)

  /** A `summary-section`: its heading, the step its edit button jumps to
      (`data-step`) and its lines in display order. */
  datatype Section = Section(title: string, editStep: nat, lines: seq<Line>)

  /** The client-type value the summary treats as a company. It is not the
      value the visibility rule compares against (`IndividualClientId`). */
  const CorporateClientType: string := "juridica"

  predicate HasLabel(lines: seq<Line>, caption: string) {
    exists j :: 0 <= j < |lines| && lines[j].caption == caption
  }

  function ContactSection(s: SummaryInput): Section {
    Section("Informações de Contato", 0, [
      Line("Tipo de Cliente", if s.clientType == CorporateClientType then "Jurídica" else "Física"),
      Line("Responsável Legal", s.responsible),
      Line("CPF", s.cpf),
      Line("RG", s.rg)])
  }

  function StoreSection(s: SummaryInput): Section {
    var company :=
      if s.clientType == CorporateClientType then [Line("CNPJ", s.cnpj), Line("Razão Social", s.businessName)]
      else [];
    var complement := if s.address1 != "" then [Line("Complemento", s.address1)] else [];
    Section("Informações da Loja", 1,
      [Line("Nome da Loja", s.storeName)] + company
      + [Line("CEP", s.zipCode), Line("Rua", s.address), Line("Número", s.number)]
      + complement
      + [Line("Bairro", s.neighborhood), Line("Cidade", s.city), Line("Estado", s.state)])
  }

  function PaymentSection(s: SummaryInput): Section {
    Section("Informações de Pagamento", 2, [
      Line("Data Vencimento Boleto", s.paymentDate),
      Line("Tipo de Pagamento", s.paymentTypeText),
      Line("Vencimento do Boleto", s.billDateText),
      Line("Forma de Envio", s.sentTypeText),
      Line("E-mail NFs e Boletos", s.financialEmail)])
  }

  /** The review page: contact, store and payment sections, whose edit
      buttons lead back to the step each one summarises. */
  function BuildSummary(s: SummaryInput): (r: seq<Section>)
    ensures |r| == 3 && forall i :: 0 <= i < 3 ==> r[i].editStep == i
  {
    [ContactSection(s), StoreSection(s), PaymentSection(s)]
  }

  /** Three sections whose edit buttons lead back to steps 0, 1 and 2. */
  lemma SummaryShape(s: SummaryInput)
    ensures |BuildSummary(s)| == 3
    ensures forall i :: 0 <= i < 3 ==> BuildSummary(s)[i].editStep == i
    ensures |BuildSummary(s)[0].lines| == 4 && |BuildSummary(s)[2].lines| == 5
    ensures |BuildSummary(s)[1].lines| ==
      7 + (if s.clientType == CorporateClientType then 2 else 0) + (if s.address1 != "" then 1 else 0)
  {
  }

  /** The CNPJ and company-name lines appear exactly for a corporate client,
      with the values the form holds. */
  lemma CompanyLines(s: SummaryInput)
    ensures HasLabel(BuildSummary(s)[1].lines, "CNPJ") <==> s.clientType == CorporateClientType
    ensures HasLabel(BuildSummary(s)[1].lines, "Razão Social") <==> s.clientType == CorporateClientType
    ensures s.clientType == CorporateClientType ==>
      BuildSummary(s)[1].lines[1] == Line("CNPJ", s.cnpj) &&
      BuildSummary(s)[1].lines[2] == Line("Razão Social", s.businessName)
  {
    var lines := BuildSummary(s)[1].lines;
    if s.clientType != CorporateClientType {
      forall j | 0 <= j < |lines| ensures lines[j].caption != "CNPJ" && lines[j].caption != "Razão Social" {
        StoreLabelsDiffer(s, j);
      }
    } else {
      assert lines[1].caption == "CNPJ" && lines[2].caption == "Razão Social";
    }
  }

  /** The complement line appears exactly when the complement is non-empty. */
  lemma ComplementLine(s: SummaryInput)
    ensures HasLabel(BuildSummary(s)[1].lines, "Complemento") <==> s.address1 != ""
  {
    var lines := BuildSummary(s)[1].lines;
    if s.address1 == "" {
      forall j | 0 <= j < |lines| ensures lines[j].caption != "Complemento" {
        StoreLabelsDiffer(s, j);
      }
    } else {
      var c := if s.clientType == CorporateClientType then 2 else 0;
      assert lines[4 + c].caption == "Complemento";
    }
  }

  /** The fixed labels of the store section are not among the optional ones. */
  lemma StoreLabelsDiffer(s: SummaryInput, j: nat)
    requires j < |StoreSection(s).lines|
    ensures s.clientType != CorporateClientType ==>
      StoreSection(s).lines[j].caption != "CNPJ" && StoreSection(s).lines[j].caption != "Razão Social"
    ensures s.address1 == "" ==> StoreSection(s).lines[j].caption != "Complemento"
  {
    var l := StoreSection(s).lines[j].caption;
    assert l in {"Nome da Loja", "CNPJ", "Razão Social", "CEP", "Rua", "Número", "Complemento",
                 "Bairro", "Cidade", "Estado"};
  }

  /** Every edit button leads to an existing step other than the summary itself. */
  lemma EditTargetsInRange(s: SummaryInput)
    ensures forall i :: 0 <= i < |BuildSummary(s)| ==> BuildSummary(s)[i].editStep < 3
  {
  }

  /** Every read `populateSummary` makes succeeds: a client type is checked,
      each element it looks up by id exists (the CNPJ and company-name ones
      only for a corporate client) and each `<select>` whose selected text it
      shows exists. Otherwise the code throws before anything is shown. */
  predicate Readable(fields: seq<Field>) {
    && CheckedValue(fields, ClientTypeName).Some?
    && ElementValue(fields, "responsible").Some?
    && ElementValue(fields, "cpf").Some?
    && ElementValue(fields, "rg").Some?
    && ElementValue(fields, "store_name").Some?
    && (CheckedValue(fields, ClientTypeName).value == CorporateClientType ==>
          ElementValue(fields, CnpjId).Some? && ElementValue(fields, BusinessNameId).Some?)
    && ElementValue(fields, "zip_code").Some?
    && ElementValue(fields, "address").Some?
    && ElementValue(fields, "number").Some?
    && ElementValue(fields, "address1").Some?
    && ElementValue(fields, "neighborhood").Some?
    && ElementValue(fields, "city").Some?
    && ElementValue(fields, "state").Some?
    && ElementValue(fields, "payment_date").Some?
    && ElementValue(fields, "payment_type").Some?
    && SelectedText(fields, "payment_type", false).Some?
    && ElementValue(fields, "bill_date").Some?
    && SelectedText(fields, "bill_date", true).Some?
    && ElementValue(fields, "sent_type").Some?
    && SelectedText(fields, "sent_type", false).Some?
    && ElementValue(fields, "financial_email").Some?
  }

  /** The value a successful lookup yields. */
  function Found(o: Option<string>): string {
    if o.Some? then o.value else ""
  }

  /** The values `populateSummary` shows, each read from the current fields.
      The bill-date text is the selected option's text of the `bill_date`
      select; the CNPJ and company name are read only for a corporate client. */
  function ReadInput(fields: seq<Field>): SummaryInput {
    var clientType := Found(CheckedValue(fields, ClientTypeName));
    var corporate := clientType == CorporateClientType;
    SummaryInput(
      clientType,
      Found(ElementValue(fields, "responsible")),
      Found(ElementValue(fields, "cpf")),
      Found(ElementValue(fields, "rg")),
      Found(ElementValue(fields, "store_name")),
      if corporate then Found(ElementValue(fields, CnpjId)) else "",
      if corporate then Found(ElementValue(fields, BusinessNameId)) else "",
      Found(ElementValue(fields, "zip_code")),
      Found(ElementValue(fields, "address")),
      Found(ElementValue(fields, "number")),
      Found(ElementValue(fields, "address1")),
      Found(ElementValue(fields, "neighborhood")),
      Found(ElementValue(fields, "city")),
      Found(ElementValue(fields, "state")),
      Found(ElementValue(fields, "payment_date")),
      Found(SelectedText(fields, "payment_type", false)),
      Found(SelectedText(fields, "bill_date", true)),
      Found(SelectedText(fields, "sent_type", false)),
      Found(ElementValue(fields, "financial_email")))
  }

  /** What `populateSummary` reads: the values it shows, or `None` where one
      of its reads would fail (and the code throws). */
  function SummaryInputOf(fields: seq<Field>): (r: Option<SummaryInput>)
    ensures r.Some? <==> Readable(fields)
    ensures r.Some? ==> CheckedValue(fields, ClientTypeName) == Some(r.value.clientType)
  {
    if Readable(fields) then Some(ReadInput(fields)) else None
  }

  /** Without a checked client type the summary cannot be built. */
  lemma NoClientTypeNoSummary(fields: seq<Field>)
    requires CheckedValue(fields, ClientTypeName).None?
    ensures SummaryInputOf(fields).None?
  {
  }

  /** The client type the summary shows: "Jurídica" exactly when the checked
      `cliente_tipo` radio holds "juridica". For the individual-client value
      it shows "Física" and the store section has no CNPJ or company-name line. */
  lemma ClientTypeShown(fields: seq<Field>)
    requires SummaryInputOf(fields).Some?
    ensures BuildSummary(SummaryInputOf(fields).value)[0].lines[0].caption == "Tipo de Cliente"
    ensures BuildSummary(SummaryInputOf(fields).value)[0].lines[0].value == "Jurídica" <==>
      CheckedValue(fields, ClientTypeName) == Some(CorporateClientType)
    ensures IsIndividual(fields) ==>
      var sections := BuildSummary(SummaryInputOf(fields).value);
      sections[0].lines[0].value == "Física" &&
      !HasLabel(sections[1].lines, "CNPJ") && !HasLabel(sections[1].lines, "Razão Social")
  {
    var input := SummaryInputOf(fields).value;
    assert "Jurídica" != "Física" by { assert "Jurídica"[0] != "Física"[0]; }
    if IsIndividual(fields) {
      assert IndividualClientId[0] != CorporateClientType[0];
    }
    CompanyLines(input);
  }

  /** Where the shown values sit in the payment section. */
  lemma PaymentLines(s: SummaryInput)
    ensures BuildSummary(s)[2].lines[1] == Line("Tipo de Pagamento", s.paymentTypeText)
    ensures BuildSummary(s)[2].lines[2] == Line("Vencimento do Boleto", s.billDateText)
  {
  }

  /** The built summary shows what the form holds: the CPF line holds the
      `cpf` field's value. */
  lemma SummaryShowsCpf(fields: seq<Field>)
    requires SummaryInputOf(fields).Some?
    ensures BuildSummary(SummaryInputOf(fields).value)[0].lines[2] == Line("CPF", ElementValue(fields, "cpf").value)
  {
    var input := SummaryInputOf(fields).value;
    assert input.cpf == ElementValue(fields, "cpf").value;
  }

  lemma SummaryShowsPaymentType(fields: seq<Field>)
    requires SummaryInputOf(fields).Some?
    ensures BuildSummary(SummaryInputOf(fields).value)[2].lines[1] ==
      Line("Tipo de Pagamento", SelectedText(fields, "payment_type", false).value)
  {
    var input := SummaryInputOf(fields).value;
    assert input.paymentTypeText == SelectedText(fields, "payment_type", false).value;
    PaymentLines(input);
  }

  lemma SummaryShowsBillDate(fields: seq<Field>)
    requires SummaryInputOf(fields).Some?
    ensures BuildSummary(SummaryInputOf(fields).value)[2].lines[2] ==
      Line("Vencimento do Boleto", SelectedText(fields, "bill_date", true).value)
  {
    var input := SummaryInputOf(fields).value;
    assert input.billDateText == SelectedText(fields, "bill_date", true).value;
    PaymentLines(input);
  }

  /** For a corporate client the store section's CNPJ and company-name lines
      hold the values of the `cnpj` and `business_name` fields. */
  lemma SummaryShowsCompany(fields: seq<Field>)
    requires SummaryInputOf(fields).Some?
    requires CheckedValue(fields, ClientTypeName) == Some(CorporateClientType)
    ensures BuildSummary(SummaryInputOf(fields).value)[1].lines[1] == Line("CNPJ", ElementValue(fields, CnpjId).value)
    ensures BuildSummary(SummaryInputOf(fields).value)[1].lines[2] ==
      Line("Razão Social", ElementValue(fields, BusinessNameId).value)
  {
    var input := SummaryInputOf(fields).value;
    assert input.cnpj == ElementValue(fields, CnpjId).value;
    assert input.businessName == ElementValue(fields, BusinessNameId).value;
    CompanyLines(input);
  }

  /** The two client-type tests are independent: for a checked value that is
      neither the individual-client id nor "juridica", the CNPJ field is shown
      and required on the form, yet the summary leaves it out. */
  lemma ClientTypeTestsDisagree(fields: seq<Field>, i: nat)
    requires SummaryInputOf(fields).Some?
    requires SummaryInputOf(fields).value.clientType != IndividualClientId
    requires SummaryInputOf(fields).value.clientType != CorporateClientType
    requires i < |fields| && InputIndex(fields, CnpjId) == Some(i)
    ensures WithVisibility(fields)[i].required && !WithVisibility(fields)[i].hidden
    ensures !HasLabel(BuildSummary(SummaryInputOf(fields).value)[1].lines, "CNPJ")
  {
    VisibilityRule(fields);
    CompanyLines(SummaryInputOf(fields).value);
  }

  /** The summary after `populateSummary` has run on `fields`: rebuilt when
      every read succeeds, `previous` when one fails. */
  function Populated(fields: seq<Field>, previous: seq<Section>): seq<Section> {
    var input := SummaryInputOf(fields);
    if input.Some? then BuildSummary(input.value) else previous
  }
}
