/**
 * The POST branch of the `orcamento` handler: the form fields are escaped,
 * validated in a fixed order that stops at the first failure, and on
 * success assembled into the quote document, a PDF path and a download
 * response.
 */
module Orcamento {
  import opened Options
  import opened PyText
  import opened Html

  /** What Python's `float()` can produce from a string. */
  datatype Float = Finite(v: real) | Infinite(negative: bool) | NaN

  /** Python's `x <= 0` on a float; every comparison with NaN is false. */
  predicate AtMostZero(x: Float) {
    match x
    case Finite(v) => v <= 0.0
    case Infinite(negative) => negative
    case NaN => false
  }

  /**
   * `float(s)`, supplied by the caller: `None` where `float` raises
   * `ValueError`, the parsed value otherwise.
   */
  type Parser = string -> Option<Float>

  /** The submitted form, one entry per field name; `None` when the field is absent. */
  datatype Form = Form(
    nomeCliente: Option<string>,
    cpfCnpjCliente: Option<string>,
    descricaoServico: Option<string>,
    observacoes: Option<string>,
    valorTotal: Option<string>)

  /** The four ways validation rejects a submission. */
  datatype ValidationError = MissingRequiredField | InvalidNumber | NonPositiveValue | InvalidTaxId

  /** A submission that passed validation: the escaped texts and the parsed total. */
  datatype Validated = Validated(
    nome: string,
    cpfCnpj: Option<string>,
    descricao: string,
    observacoes: Option<string>,
    total: Float)

  /** The three required fields, tested for emptiness only (whitespace passes). */
  predicate RequiredPresent(form: Form) {
    !Falsy(form.nomeCliente) && !Falsy(form.descricaoServico) && !Falsy(form.valorTotal)
  }

  /**
   * The tax-id rule in terms of the raw field: a present value is rejected
   * unless its ESCAPED form holds exactly 11 or 14 digits.
   */
  predicate TaxIdRejected(cpf: Option<string>) {
    !Falsy(cpf) && |StripNonDigits(EscapeAll(cpf.value))| != 11 && |StripNonDigits(EscapeAll(cpf.value))| != 14
  }

  /** Lines 25-50: escape, then check required fields, the number, its sign and the tax id. */
  function Validate(form: Form, parse: Parser): (r: Result<Validated, ValidationError>)
    ensures r.Success? ==> form.valorTotal.Some? && parse(form.valorTotal.value) == Some(r.value.total)
    ensures r.Success? ==> !AtMostZero(r.value.total)
    ensures r.Success? ==> r.value.nome != [] && r.value.descricao != []
  {
    var nome := EscapeHtml(form.nomeCliente);
    var cpf := EscapeHtml(form.cpfCnpjCliente);
    var descricao := EscapeHtml(form.descricaoServico);
    var observacoes := EscapeHtml(form.observacoes);
    var valor := form.valorTotal;
    if Falsy(nome) || Falsy(descricao) || Falsy(valor) then Failure(MissingRequiredField)
    else
      match parse(valor.value)
      case None => Failure(InvalidNumber)
      case Some(total) =>
        if AtMostZero(total) then Failure(NonPositiveValue)
        else if !Falsy(cpf) && !MatchesTaxIdPattern(StripNonDigits(cpf.value)) then Failure(InvalidTaxId)
        else Success(Validated(nome.value, cpf, descricao.value, observacoes, total))
  }

  /** A missing required field is reported first, whatever the number and the tax id are. */
  lemma MissingFieldFirst(form: Form, parse: Parser)
    requires !RequiredPresent(form)
    ensures Validate(form, parse) == Failure(MissingRequiredField)
  {
    EscapeHtmlFalsy(form.nomeCliente);
    EscapeHtmlFalsy(form.descricaoServico);
  }

  /**
   * With the required fields present the number is decided next, before the
   * tax id: unparsable is `InvalidNumber`, not above zero is `NonPositiveValue`.
   */
  lemma NumberDecidedBeforeTaxId(form: Form, parse: Parser)
    requires RequiredPresent(form)
    ensures parse(form.valorTotal.value).None? ==> Validate(form, parse) == Failure(InvalidNumber)
    ensures parse(form.valorTotal.value).Some? && AtMostZero(parse(form.valorTotal.value).value)
      ==> Validate(form, parse) == Failure(NonPositiveValue)
  {
    EscapeHtmlFalsy(form.nomeCliente);
    EscapeHtmlFalsy(form.descricaoServico);
  }

  /**
   * Once the number is accepted, the tax id alone decides: the submission is
   * rejected with `InvalidTaxId` exactly when the tax id is present and its
   * escaped form has neither 11 nor 14 digits, and accepted otherwise.
   */
  lemma TaxIdDecidesLast(form: Form, parse: Parser)
    requires RequiredPresent(form)
    requires parse(form.valorTotal.value).Some? && !AtMostZero(parse(form.valorTotal.value).value)
    ensures Validate(form, parse).Failure? <==> TaxIdRejected(form.cpfCnpjCliente)
    ensures Validate(form, parse).Failure? ==> Validate(form, parse).error == InvalidTaxId
  {
    EscapeHtmlFalsy(form.nomeCliente);
    EscapeHtmlFalsy(form.descricaoServico);
    EscapeHtmlFalsy(form.cpfCnpjCliente);
    if form.cpfCnpjCliente.Some? {
      TaxIdPatternIsLength(EscapeAll(form.cpfCnpjCliente.value));
    }
  }

  /** The stripped tax id matches the pattern exactly when it has 11 or 14 characters. */
  lemma TaxIdPatternIsLength(s: string)
    ensures MatchesTaxIdPattern(StripNonDigits(s)) <==> |StripNonDigits(s)| == 11 || |StripNonDigits(s)| == 14
  {
  }

  /** Validation succeeds exactly when every check passes. */
  lemma ValidateSucceedsIff(form: Form, parse: Parser)
    ensures Validate(form, parse).Success? <==>
      RequiredPresent(form)
      && parse(form.valorTotal.value).Some?
      && !AtMostZero(parse(form.valorTotal.value).value)
      && !TaxIdRejected(form.cpfCnpjCliente)
  {
    if !RequiredPresent(form) {
      MissingFieldFirst(form, parse);
    } else {
      NumberDecidedBeforeTaxId(form, parse);
      if parse(form.valorTotal.value).Some? && !AtMostZero(parse(form.valorTotal.value).value) {
        TaxIdDecidesLast(form, parse);
      }
    }
  }

  /** A successful validation carries the escaped fields of the form. */
  lemma ValidatedFields(form: Form, parse: Parser)
    ensures Validate(form, parse).Success? ==> var v := Validate(form, parse).value;
      && v.nome == EscapeAll(form.nomeCliente.value)
      && v.descricao == EscapeAll(form.descricaoServico.value)
      && v.cpfCnpj == EscapeHtml(form.cpfCnpjCliente)
      && v.observacoes == EscapeHtml(form.observacoes)
  {
  }

  /** Python's sign test lets NaN and positive infinity through, and nothing else that is not above zero. */
  lemma AcceptedTotals(x: Float)
    ensures !AtMostZero(x) <==> (x.Finite? && x.v > 0.0) || x == Infinite(false) || x == NaN
  {
  }

  /**
   * The tax id is escaped before its digits are counted, so each apostrophe,
   * escaped as `&#39;`, counts as the two digits `3` and `9`; no other
   * entity holds a digit.
   */
  lemma {:induction false} TaxIdDigitsAfterEscaping(s: string)
    ensures StripNonDigits(EscapeAll(s)) == StripNonDigits(Replace(s, '\'', "39"))
  {
    if s != [] {
      var x, t := s[0], s[1..];
      TaxIdDigitsAfterEscaping(t);
      StripAppend(EscapeChar(x), EscapeAll(t));
      assert s == [x] + t;
      ReplaceAppend([x], t, '\'', "39");
      StripAppend(Replace([x], '\'', "39"), Replace(t, '\'', "39"));
      EntityDigits(x);
    }
  }

  /** Of the five entities only `&#39;` holds digits, namely `39`. */
  lemma EntityDigits(x: char)
    ensures StripNonDigits(EscapeChar(x)) == StripNonDigits(Replace([x], '\'', "39"))
  {
    ReplaceSingle(x, '\'', "39");
    if x == '\'' {
      assert EscapeChar(x) == "&#" + "39" + ";";
      StripAppend("&#" + "39", ";");
      StripAppend("&#", "39");
      StripNoDigits("&#");
      StripNoDigits(";");
    } else if IsSpecial(x) {
      StripNoDigits(EscapeChar(x));
      StripNoDigits([x]);
    }
  }

  /**
   * Nine (or twelve) digits and an apostrophe pass the tax-id check: the
   * escaped apostrophe adds the two digits that make up 11 (or 14).
   */
  lemma ApostropheCompletesTaxId(d: string)
    requires |d| == 9 || |d| == 12
    requires forall i :: 0 <= i < |d| ==> IsDigit(d[i])
    ensures |StripNonDigits(d + "'")| == |d|
    ensures !TaxIdRejected(Some(d + "'"))
  {
    TaxIdDigitsAfterEscaping(d + "'");
    ReplaceAppend(d, "'", '\'', "39");
    ReplaceSingle('\'', '\'', "39");
    StripAllDigits(d);
    StripAllDigits("39");
    StripAppend(d, "39");
    StripAppend(d, "'");
    StripNoDigits("'");
  }

  /** The placeholder shown for an empty tax id (line 64). */
  const TaxIdPlaceholder: string := "Não informado"

  /** The placeholder shown for empty notes (line 66). */
  const NotesPlaceholder: string := "Nenhuma observação fornecida."

  /** The values handed to the document template (lines 61-70), prices given by the total. */
  datatype Quote = Quote(
    nomeCliente: string,
    cpfCnpj: string,
    descricaoServico: string,
    observacoes: string,
    total: Float,
    today: string)

  /** Lines 61-70: optional fields fall back to their placeholders. */
  function Assemble(v: Validated, today: string): Quote {
    Quote(v.nome, OrElse(v.cpfCnpj, TaxIdPlaceholder), v.descricao,
          OrElse(v.observacoes, NotesPlaceholder), v.total, today)
  }

  /** Line 73: `f"orcamento_{nome}_{today.replace('/', '-')}.pdf"`. */
  function PdfPath(nome: string, today: string): string {
    "orcamento_" + nome + "_" + Replace(today, '/', "-") + ".pdf"
  }

  /**
   * The PDF path is `orcamento_`, the name, `_`, the date with every `/`
   * turned into `-` and nothing else changed, and `.pdf`.
   */
  lemma PdfPathShape(nome: string, today: string)
    ensures var r := PdfPath(nome, today);
      && |r| == 15 + |nome| + |today|
      && r[..10] == "orcamento_" && r[10..10 + |nome|] == nome && r[10 + |nome|] == '_'
      && r[|r| - 4..] == ".pdf"
      && (forall i :: 0 <= i < |today| ==> r[11 + |nome| + i] == if today[i] == '/' then '-' else today[i])
      && (forall i :: 11 + |nome| <= i < |r| ==> r[i] != '/')
  {
    var date := Replace(today, '/', "-");
    var r := PdfPath(nome, today);
    assert r == "orcamento_" + nome + "_" + date + ".pdf";
    forall i | 0 <= i < |today|
      ensures |date| == |today| && date[i] == if today[i] == '/' then '-' else today[i]
    {
      ReplaceByCharAt(today, '/', "-", i);
    }
    if today == [] {
      assert date == [];
    }
    assert r[11 + |nome|..|r| - 4] == date;
    forall i | 11 + |nome| <= i < |r| ensures r[i] != '/' {
      if i < |r| - 4 {
        assert r[i] == date[i - 11 - |nome|];
      }
    }
  }

  /** The plain-text body of each validation failure (lines 34, 40, 43, 50). */
  function ErrorMessage(e: ValidationError): string {
    match e
    case MissingRequiredField => "Por favor, preencha todos os campos obrigatórios."
    case NonPositiveValue => "O valor total deve ser maior que zero."
    case InvalidNumber => "O valor total deve ser um número válido."
    case InvalidTaxId => "Por favor, insira um CPF (11 dígitos) ou CNPJ (14 dígitos) válido."
  }

  /** What the handler sends: a plain-text body with a status, or the PDF as an attachment. */
  datatype Response =
    | PlainText(status: int, body: string)
    | PdfDownload(path: string, downloadName: string, mimetype: string, document: Quote)

  /**
   * `write_pdf`, supplied by the caller: renders the quote to the given path
   * and yields the text of the error it raised, if any.
   */
  type PdfWriter = (Quote, string) -> Option<string>

  /** The POST branch of `orcamento` (lines 23-87), with the date as `today`. */
  function HandlePost(form: Form, parse: Parser, today: string, writePdf: PdfWriter): (r: Response)
    ensures r.PlainText? ==> r.status == 400 || r.status == 500
    ensures r.PdfDownload? ==> r.mimetype == "application/pdf" && r.downloadName == r.path
  {
    match Validate(form, parse)
    case Failure(e) => PlainText(400, ErrorMessage(e))
    case Success(v) =>
      var quote := Assemble(v, today);
      var path := PdfPath(v.nome, today);
      match writePdf(quote, path)
      case Some(err) => PlainText(500, "Erro ao gerar PDF: " + err)
      case None => PdfDownload(path, path, "application/pdf", quote)
  }

  /** A rejected submission gets status 400 and its message, and no PDF is written. */
  lemma RejectedBeforePdf(form: Form, parse: Parser, today: string, writePdf: PdfWriter)
    ensures HandlePost(form, parse, today, writePdf).PlainText? && HandlePost(form, parse, today, writePdf).status == 400
      <==> Validate(form, parse).Failure?
    ensures Validate(form, parse).Failure? ==>
      HandlePost(form, parse, today, writePdf) == PlainText(400, ErrorMessage(Validate(form, parse).error))
  {
  }

  /** A failing PDF conversion gets status 500 with the error text. */
  lemma PdfFailureIs500(form: Form, parse: Parser, today: string, writePdf: PdfWriter)
    ensures Validate(form, parse).Success? ==>
      var v := Validate(form, parse).value;
      var outcome := writePdf(Assemble(v, today), PdfPath(v.nome, today));
      outcome.Some? ==> HandlePost(form, parse, today, writePdf) == PlainText(500, "Erro ao gerar PDF: " + outcome.value)
  {
  }

  /**
   * A valid submission whose PDF is written is delivered as an attachment of
   * its quote at its path, and a delivered PDF comes from nothing else.
   */
  lemma DeliveredAfterValidation(form: Form, parse: Parser, today: string, writePdf: PdfWriter)
    ensures Validate(form, parse).Success? ==>
      var v := Validate(form, parse).value;
      var quote, path := Assemble(v, today), PdfPath(v.nome, today);
      writePdf(quote, path).None? ==> HandlePost(form, parse, today, writePdf) == PdfDownload(path, path, "application/pdf", quote)
    ensures HandlePost(form, parse, today, writePdf).PdfDownload? ==>
      && Validate(form, parse).Success?
      && var v := Validate(form, parse).value;
      && HandlePost(form, parse, today, writePdf).document == Assemble(v, today)
      && HandlePost(form, parse, today, writePdf).path == PdfPath(v.nome, today)
      && writePdf(Assemble(v, today), PdfPath(v.nome, today)).None?
  {
  }

  /** The tax-id placeholder has no digits, so no accepted tax id can look like it. */
  lemma PlaceholderIsNoTaxId(cpf: string)
    requires !TaxIdRejected(Some(cpf)) && cpf != []
    ensures EscapeAll(cpf) != TaxIdPlaceholder
  {
    PlaceholderHasNoDigits();
  }

  /** `Não informado` holds no digit. */
  lemma PlaceholderHasNoDigits()
    ensures StripNonDigits(TaxIdPlaceholder) == []
  {
    StripNoDigits(TaxIdPlaceholder);
  }

  /**
   * On success the tax id shows as the placeholder exactly when none was
   * given and as the escaped value otherwise; empty notes show as their
   * placeholder, other notes escaped; the file is named after the escaped
   * client name and the date.
   */
  lemma SuccessDocument(form: Form, parse: Parser, today: string, writePdf: PdfWriter)
    ensures var r := HandlePost(form, parse, today, writePdf);
      r.PdfDownload? ==>
      && (r.document.cpfCnpj == TaxIdPlaceholder <==> Falsy(form.cpfCnpjCliente))
      && (!Falsy(form.cpfCnpjCliente) ==> r.document.cpfCnpj == EscapeAll(form.cpfCnpjCliente.value))
      && r.document.observacoes == (if Falsy(form.observacoes) then NotesPlaceholder else EscapeAll(form.observacoes.value))
      && r.document.nomeCliente == EscapeAll(form.nomeCliente.value)
      && r.document.descricaoServico == EscapeAll(form.descricaoServico.value)
      && r.document.total == parse(form.valorTotal.value).value
      && r.document.today == today
      && r.path == PdfPath(EscapeAll(form.nomeCliente.value), today)
  {
    if HandlePost(form, parse, today, writePdf).PdfDownload? {
      DeliveredAfterValidation(form, parse, today, writePdf);
      ValidatedFields(form, parse);
      EscapeHtmlFalsy(form.cpfCnpjCliente);
      EscapeHtmlFalsy(form.observacoes);
      if !Falsy(form.cpfCnpjCliente) {
        // an accepted tax id has 11 or 14 digits, the placeholder none
        ValidateSucceedsIff(form, parse);
        PlaceholderIsNoTaxId(form.cpfCnpjCliente.value);
      }
    }
  }

  /** Neither placeholder holds `<`, `>`, `"` or `'`. */
  lemma PlaceholdersHaveNoMarkup()
    ensures forall i :: 0 <= i < |TaxIdPlaceholder| ==> !IsMarkup(TaxIdPlaceholder[i])
    ensures forall i :: 0 <= i < |NotesPlaceholder| ==> !IsMarkup(NotesPlaceholder[i])
  {
  }

  /** No escaped or placeholder field of a delivered document holds `<`, `>`, `"` or `'`. */
  lemma DocumentHasNoMarkup(form: Form, parse: Parser, today: string, writePdf: PdfWriter)
    ensures HandlePost(form, parse, today, writePdf).PdfDownload? ==>
      var d := HandlePost(form, parse, today, writePdf).document;
      && (forall i :: 0 <= i < |d.nomeCliente| ==> !IsMarkup(d.nomeCliente[i]))
      && (forall i :: 0 <= i < |d.cpfCnpj| ==> !IsMarkup(d.cpfCnpj[i]))
      && (forall i :: 0 <= i < |d.descricaoServico| ==> !IsMarkup(d.descricaoServico[i]))
      && (forall i :: 0 <= i < |d.observacoes| ==> !IsMarkup(d.observacoes[i]))
  {
    if HandlePost(form, parse, today, writePdf).PdfDownload? {
      SuccessDocument(form, parse, today, writePdf);
      var d := HandlePost(form, parse, today, writePdf).document;
      PlaceholdersHaveNoMarkup();
      EscapeAllSafe(form.nomeCliente.value);
      EscapeAllSafe(form.descricaoServico.value);
      if !Falsy(form.cpfCnpjCliente) {
        EscapeAllSafe(form.cpfCnpjCliente.value);
      } else {
        assert d.cpfCnpj == TaxIdPlaceholder;
      }
      if !Falsy(form.observacoes) {
        EscapeAllSafe(form.observacoes.value);
      } else {
        assert d.observacoes == NotesPlaceholder;
      }
    }
  }

  /** An unparsable total is answered with 400 and the invalid-number message (line 43). */
  lemma InvalidNumberResponse(form: Form, parse: Parser, today: string, writePdf: PdfWriter)
    requires RequiredPresent(form) && parse(form.valorTotal.value).None?
    ensures HandlePost(form, parse, today, writePdf) == PlainText(400, "O valor total deve ser um número válido.")
  {
    NumberDecidedBeforeTaxId(form, parse);
  }

  /** A total not above zero is answered with 400 and the non-positive message (line 40). */
  lemma NonPositiveResponse(form: Form, parse: Parser, today: string, writePdf: PdfWriter)
    requires RequiredPresent(form) && parse(form.valorTotal.value).Some?
    requires AtMostZero(parse(form.valorTotal.value).value)
    ensures HandlePost(form, parse, today, writePdf) == PlainText(400, "O valor total deve ser maior que zero.")
  {
    NumberDecidedBeforeTaxId(form, parse);
  }

  /** A rejected tax id after an accepted total is answered with 400 and the CPF/CNPJ message (line 50). */
  lemma InvalidTaxIdResponse(form: Form, parse: Parser, today: string, writePdf: PdfWriter)
    requires RequiredPresent(form) && parse(form.valorTotal.value).Some?
    requires !AtMostZero(parse(form.valorTotal.value).value)
    requires TaxIdRejected(form.cpfCnpjCliente)
    ensures HandlePost(form, parse, today, writePdf)
      == PlainText(400, "Por favor, insira um CPF (11 dígitos) ou CNPJ (14 dígitos) válido.")
  {
    TaxIdDecidesLast(form, parse);
    assert Validate(form, parse) == Failure(InvalidTaxId);
    RejectedBeforePdf(form, parse, today, writePdf);
  }

  /** The tax id `123` is rejected. */
  lemma ShortTaxIdRejected()
    ensures TaxIdRejected(Some("123"))
  {
    EscapeAllIdentity("123");
  }
}
