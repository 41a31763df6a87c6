/** The boleto engine: for a plate and a phone number it decides, from the tenant's
    configuration, today's date and what the ERP answers, which reply text to return and
    which messages to send (the PIX code, the boleto's PDF link, an inspection video).
    The ERP lookups are parameters that return a result or an error; the messages are
    returned as the requests the messaging client would post, in the order they are
    issued. */
module BoletoService {
  import opened Wrappers
  import opened Text
  import opened Dates
  import opened DateFormat
  import opened Template
  import opened Sga
  import opened AtomosClient

  const ClienteNaoEncontrado := "Cliente não encontrado ou inativo."
  const VeiculoNaoEncontrado := "Veículo não encontrado."
  const ErroBuscarBoleto := "Erro ao buscar boleto: "
  const ErroBuscarVeiculo := "Erro ao buscar veículo: "
  const DefaultBaseUrl := "https://api.hinova.com.br/api/sga/v2"
  const Baixado := "BAIXADO"
  const Aberto := "ABERTO"
  /** FIPE codes of motorcycles start with this prefix. */
  const PrefixoMoto := "81"

  // ---- the tenant's configuration ----

  /** The boleto policy; the lists and the day limit may be missing, in which case the
      engine falls back on its own defaults. */
  datatype ConfigBoleto = ConfigBoleto(
    diasAntes: int,
    diasDepois: int,
    situacoesEnvioDireto: Option<seq<string>>,
    situacoesComChecagem: Option<seq<string>>,
    diasChecagem: Option<int>)

  /** The four reply templates. */
  datatype Respostas = Respostas(
    sucesso: string,
    regularizacaoMoto: string,
    regularizacaoVeiculo: string,
    boletoBaixado: string)

  /** Whether inspection videos are sent, and which. */
  datatype Revistoria = Revistoria(enviarMidia: bool, videoMoto: Option<string>, videoCarro: Option<string>)

  /** A tenant together with its three configuration sections. */
  datatype Cliente = Cliente(
    id: string,
    nome: string,
    ativo: bool,
    tokenErp: string,
    tokenChat: string,
    tokenCanal: string,
    baseUrl: string,
    boleto: ConfigBoleto,
    respostas: Respostas,
    revistoria: Revistoria)

  /** The rows the configuration store holds for a tenant. */
  datatype ClienteRow = ClienteRow(
    id: string,
    nome: string,
    ativo: bool,
    tokenErp: string,
    tokenChat: string,
    tokenCanal: string,
    baseUrl: Option<string>)

  datatype BoletoRow = BoletoRow(
    diasAntes: int,
    diasDepois: int,
    situacoesEnvioDireto: Option<seq<string>>,
    situacoesComChecagem: Option<seq<string>>,
    diasChecagem: Option<int>)

  datatype RevistoriaRow = RevistoriaRow(enviarMidia: Option<bool>, videoMoto: Option<string>, videoCarro: Option<string>)

  /** `getClienteComConfigs` once the rows are read: no tenant unless the tenant row and
      all three configuration rows exist; missing values take the loader's defaults. */
  function ComConfigs(cliente: Option<ClienteRow>, boleto: Option<BoletoRow>,
                      respostas: Option<Respostas>, revistoria: Option<RevistoriaRow>): (r: Option<Cliente>)
    ensures r.Some? <==> cliente.Some? && boleto.Some? && respostas.Some? && revistoria.Some?
    ensures r.Some? ==> r.value.boleto.situacoesEnvioDireto.Some? && r.value.boleto.situacoesComChecagem.Some?
                        && r.value.boleto.diasChecagem.Some?
    ensures r.Some? ==> var c := cliente.value;
      r.value.id == c.id && r.value.nome == c.nome && r.value.ativo == c.ativo &&
      r.value.tokenErp == c.tokenErp && r.value.tokenChat == c.tokenChat && r.value.tokenCanal == c.tokenCanal &&
      r.value.baseUrl == c.baseUrl.GetOr(DefaultBaseUrl)
    ensures r.Some? ==> var b := boleto.value;
      r.value.boleto.diasAntes == b.diasAntes && r.value.boleto.diasDepois == b.diasDepois &&
      EnvioDireto(r.value.boleto) == b.situacoesEnvioDireto.GetOr(["ATIVO"]) &&
      ComChecagem(r.value.boleto) == b.situacoesComChecagem.GetOr(["INADIMPLENTE"]) &&
      Limite(r.value.boleto) == b.diasChecagem.GetOr(2)
    ensures r.Some? ==> r.value.respostas == respostas.value
    ensures r.Some? ==> var rv := revistoria.value;
      r.value.revistoria.enviarMidia == rv.enviarMidia.GetOr(false) &&
      r.value.revistoria.videoMoto == rv.videoMoto && r.value.revistoria.videoCarro == rv.videoCarro
  {
    if cliente.None? || boleto.None? || respostas.None? || revistoria.None? then None
    else
      var c, b, rv := cliente.value, boleto.value, revistoria.value;
      Some(Cliente(c.id, c.nome, c.ativo, c.tokenErp, c.tokenChat, c.tokenCanal,
                   c.baseUrl.GetOr(DefaultBaseUrl),
                   ConfigBoleto(b.diasAntes, b.diasDepois,
                                Some(b.situacoesEnvioDireto.GetOr(["ATIVO"])),
                                Some(b.situacoesComChecagem.GetOr(["INADIMPLENTE"])),
                                Some(b.diasChecagem.GetOr(2))),
                   respostas.value,
                   Revistoria(rv.enviarMidia.GetOr(false), rv.videoMoto, rv.videoCarro)))
  }

  // ---- the policy's lists ----

  function EnvioDireto(cfg: ConfigBoleto): seq<string> {
    cfg.situacoesEnvioDireto.GetOr(["ATIVO"])
  }

  /** The check list as the boleto path reads it. */
  function ComChecagem(cfg: ConfigBoleto): seq<string> {
    cfg.situacoesComChecagem.GetOr(["INADIMPLENTE"])
  }

  /** The check list as the path without a boleto reads it: its default is empty. */
  function ComChecagemSemBoleto(cfg: ConfigBoleto): seq<string> {
    cfg.situacoesComChecagem.GetOr([])
  }

  function Limite(cfg: ConfigBoleto): int {
    cfg.diasChecagem.GetOr(2)
  }

  /** For a tenant built by the loader the two paths see the same check list, the one
      stored or else `INADIMPLENTE` alone: the empty default is never used. */
  lemma LoadedCheckList(cliente: Option<ClienteRow>, boleto: Option<BoletoRow>,
                        respostas: Option<Respostas>, revistoria: Option<RevistoriaRow>)
    requires ComConfigs(cliente, boleto, respostas, revistoria).Some?
    ensures var cfg := ComConfigs(cliente, boleto, respostas, revistoria).value.boleto;
      ComChecagemSemBoleto(cfg) == ComChecagem(cfg) == boleto.value.situacoesComChecagem.GetOr(["INADIMPLENTE"])
  {
  }

  // ---- motorcycles and the regularisation reply ----

  /** `isMotocicleta`: the code, trimmed, starts with `81`; no code is not a motorcycle.
      Only the leading white space matters: trimming the end never adds or removes the
      prefix. */
  function IsMotocicleta(codigoFipe: Option<string>): (r: bool)
    ensures r <==> codigoFipe.Some? && StartsWith(TrimStart(codigoFipe.value), PrefixoMoto)
  {
    assert codigoFipe.Some? ==> (StartsWith(Trim(codigoFipe.value), PrefixoMoto) <==>
                                 StartsWith(TrimStart(codigoFipe.value), PrefixoMoto)) by {
      if codigoFipe.Some? { TrimEndPrefix(TrimStart(codigoFipe.value)); }
    }
    codigoFipe.Some? && StartsWith(Trim(codigoFipe.value), PrefixoMoto)
  }

  /** `getResponseRegularizacao`: the motorcycle template for a motorcycle, the vehicle
      template otherwise. */
  function GetResponseRegularizacao(codigoFipe: Option<string>, respostas: Respostas): (r: string)
    ensures r == respostas.regularizacaoMoto || r == respostas.regularizacaoVeiculo
    ensures codigoFipe.None? ==> r == respostas.regularizacaoVeiculo
  {
    if IsMotocicleta(codigoFipe) then respostas.regularizacaoMoto else respostas.regularizacaoVeiculo
  }

  /** Trailing white space is all `trimEnd` removes: a character that is not white space
      stays. */
  lemma TrimEndKeeps(s: string, i: nat)
    requires i < |s| && !IsWhitespace(s[i])
    ensures i < |TrimEnd(s)|
  {
    var r := TrimEnd(s);
    forall j | |r| <= j < |s| ensures IsWhitespace(s[j]) {
      assert s[j] == s[|r|..][j - |r|];
    }
  }

  /** Trimming the end of a code keeps its prefix `81`, and adds none. */
  lemma TrimEndPrefix(code: string)
    ensures StartsWith(TrimEnd(code), PrefixoMoto) <==> StartsWith(code, PrefixoMoto)
  {
    var t := TrimEnd(code);
    if StartsWith(code, PrefixoMoto) {
      assert code[1] == '1';
      TrimEndKeeps(code, 1);
      assert t[..2] == code[..2];
    } else if |t| >= 2 {
      assert t[..2] == code[..2];
    }
  }

  /** A code that does not start with white space is a motorcycle's exactly when it
      starts with `81`, whatever white space surrounds it. */
  lemma MotocicletaByPrefix(a: string, code: string, b: string)
    requires AllWhitespace(a) && AllWhitespace(b)
    requires code != [] ==> !IsWhitespace(code[0])
    ensures IsMotocicleta(Some(a + code + b)) <==> StartsWith(code, PrefixoMoto)
  {
    TrimPadded(a, code, b);
    assert TrimStart(code) == code;
    TrimEndPrefix(code);
  }

  /** The reply for a vehicle that cannot be served: the motorcycle template exactly for
      a code that starts with `81` once trimmed, and the vehicle template for no code. */
  lemma RegularizacaoChoice(a: string, code: string, b: string, respostas: Respostas)
    requires AllWhitespace(a) && AllWhitespace(b)
    requires code != [] ==> !IsWhitespace(code[0])
    ensures StartsWith(code, PrefixoMoto) ==>
      GetResponseRegularizacao(Some(a + code + b), respostas) == respostas.regularizacaoMoto
    ensures !StartsWith(code, PrefixoMoto) ==>
      GetResponseRegularizacao(Some(a + code + b), respostas) == respostas.regularizacaoVeiculo
  {
    MotocicletaByPrefix(a, code, b);
  }

  // ---- the boleto path ----

  /** The outcome of a request: the reply and the messages sent, in order. */
  datatype Resolution = Resolution(reply: string, dispatches: seq<SendRequest>)

  function Atomos(cliente: Cliente): AtomosClient.Config {
    AtomosClient.Config(cliente.tokenChat, cliente.tokenCanal)
  }

  /** `boleto.veiculos?.[0]?.codigo_fipe`. */
  function CodigoFipe(boleto: Boleto): Option<string> {
    if boleto.veiculos == [] then None else boleto.veiculos[0].codigoFipe
  }

  /** `veiculo?.situacao_veiculo ?? ""` for the first vehicle. */
  function SituacaoVeiculo(boleto: Boleto): string {
    if boleto.veiculos == [] then "" else boleto.veiculos[0].situacaoVeiculo.GetOr("")
  }

  /** `diasAposVenc > limite`: an unreadable due date gives `NaN`, which is never greater;
      in particular a due date with neither a `-` nor a `/` is never over the limit. */
  function LagExceeds(dataVencimento: string, hoje: Date, limite: int): (r: bool)
    requires Valid(hoje)
    ensures r ==> ParseDate(dataVencimento).Some?
    ensures r ==> '-' in Trim(dataVencimento) || '/' in Trim(dataVencimento)
  {
    var t := Trim(dataVencimento);
    assert '-' !in t && '/' !in t ==> ParseDate(dataVencimento).None? by {
      if '-' !in t && '/' !in t { SplitNoSeparator(t, '/'); }
    }
    match ParseDate(dataVencimento)
    case None => false
    case Some(venc) => DiffDays(hoje, venc) > limite
  }

  /** The policy for an open boleto: a situation on the check list is served unless the
      boleto is more than the limit overdue; otherwise it is served when it is on the
      direct list. */
  function Entrega(boleto: Boleto, cfg: ConfigBoleto, hoje: Date): (r: bool)
    requires Valid(hoje)
    ensures r ==> SituacaoVeiculo(boleto) in ComChecagem(cfg) || SituacaoVeiculo(boleto) in EnvioDireto(cfg)
    ensures SituacaoVeiculo(boleto) in EnvioDireto(cfg) && SituacaoVeiculo(boleto) !in ComChecagem(cfg) ==> r
    ensures SituacaoVeiculo(boleto) in ComChecagem(cfg) && ParseDate(boleto.dataVencimento).None? ==> r
  {
    var situacao := SituacaoVeiculo(boleto);
    if situacao in ComChecagem(cfg) then !LagExceeds(boleto.dataVencimento, hoje, Limite(cfg))
    else situacao in EnvioDireto(cfg)
  }

  /** `boleto.pix?.copia_cola ?? boleto.linha_digitavel ?? ""`. */
  function PixText(boleto: Boleto): (t: string)
    ensures boleto.pix.Some? && boleto.pix.value.copiaCola.Some? ==> t == boleto.pix.value.copiaCola.value
    ensures (boleto.pix.None? || boleto.pix.value.copiaCola.None?) ==> t == boleto.linhaDigitavel.GetOr("")
  {
    var copiaCola := if boleto.pix.Some? then boleto.pix.value.copiaCola else None;
    copiaCola.GetOr(boleto.linhaDigitavel.GetOr(""))
  }

  /** `boleto.link_boleto ?? boleto.short_link ?? ""`. */
  function LinkBoleto(boleto: Boleto): (t: string)
    ensures boleto.linkBoleto.Some? ==> t == boleto.linkBoleto.value
    ensures boleto.linkBoleto.None? ==> t == boleto.shortLink.GetOr("")
  {
    boleto.linkBoleto.GetOr(boleto.shortLink.GetOr(""))
  }

  /** The messages an open, servable boleto triggers: the PIX code when there is one,
      then the PDF link when there is one. */
  function Envios(boleto: Boleto, telefone: string, atomos: AtomosClient.Config): (r: seq<SendRequest>)
    ensures |r| == (if PixText(boleto) != [] then 1 else 0) + (if LinkBoleto(boleto) != [] then 1 else 0)
    ensures forall i :: 0 <= i < |r| ==> r[i].from == atomos.tokenCanal && r[i].to == NormalizePhone(telefone)
    ensures PixText(boleto) != [] ==> r[0].body == MessageBody(PixText(boleto), None)
    ensures LinkBoleto(boleto) != [] ==> r[|r| - 1].body == MessageBody(DefaultCaption, Some(LinkBoleto(boleto)))
  {
    var pix := PixText(boleto);
    var link := LinkBoleto(boleto);
    (if pix != [] then [SendPix(atomos, telefone, pix)] else []) +
    (if link != [] then [SendPdf(atomos, telefone, link)] else [])
  }

  /** The success template with the due date and the amount filled in. */
  function ReplySucesso(boleto: Boleto, respostas: Respostas): string {
    Render(respostas.sucesso, [("data_vencimento", boleto.dataVencimento), ("valor_boleto", boleto.valorBoleto)])
  }

  /** `processarBoletoEncontrado`: a paid boleto gets the paid reply, any state but open
      the regularisation reply, an open boleto the success reply and its messages when
      the policy serves it and the regularisation reply otherwise. An open boleto the
      policy refuses, over the limit on the check list or on neither list, gets the
      regularisation reply and no message. */
  function ProcessarBoletoEncontrado(boleto: Boleto, telefone: string, cliente: Cliente, hoje: Date): (r: Resolution)
    requires Valid(hoje)
    ensures r.dispatches != [] ==> boleto.situacaoBoleto == Aberto && Entrega(boleto, cliente.boleto, hoje)
    ensures |r.dispatches| <= 2
    ensures r.reply == cliente.respostas.boletoBaixado || r.reply == ReplySucesso(boleto, cliente.respostas) ||
            r.reply == GetResponseRegularizacao(CodigoFipe(boleto), cliente.respostas)
    ensures boleto.situacaoBoleto == Aberto && !Entrega(boleto, cliente.boleto, hoje) ==>
            r == Resolution(GetResponseRegularizacao(CodigoFipe(boleto), cliente.respostas), [])
  {
    if boleto.situacaoBoleto == Baixado then
      Resolution(cliente.respostas.boletoBaixado, [])
    else if boleto.situacaoBoleto != Aberto then
      Resolution(GetResponseRegularizacao(CodigoFipe(boleto), cliente.respostas), [])
    else if !Entrega(boleto, cliente.boleto, hoje) then
      Resolution(GetResponseRegularizacao(CodigoFipe(boleto), cliente.respostas), [])
    else
      Resolution(ReplySucesso(boleto, cliente.respostas), Envios(boleto, telefone, Atomos(cliente)))
  }

  /** The policy for a boleto whose vehicle's situation is on the check list and whose
      due date reads as a date: it is served exactly when it is at most the limit overdue,
      so a lag equal to the limit is still served. This holds also for a situation on both
      lists: the check list takes precedence. */
  lemma EntregaComChecagem(boleto: Boleto, cfg: ConfigBoleto, hoje: Date, venc: Date)
    requires Valid(hoje) && SituacaoVeiculo(boleto) in ComChecagem(cfg)
    requires ParseDate(boleto.dataVencimento) == Some(venc)
    ensures Entrega(boleto, cfg, hoje) <==> DiffDays(hoje, venc) <= Limite(cfg)
  {
  }

  /** A boleto due `n` days ago, with its due date written as the ERP's `dd/mm/yyyy`,
      is served on the check list exactly when `n` is at most the limit. */
  lemma LagBoundary(boleto: Boleto, cfg: ConfigBoleto, hoje: Date, n: int)
    requires Valid(hoje) && SituacaoVeiculo(boleto) in ComChecagem(cfg)
    requires AddDays(hoje, -n).year >= 100 && boleto.dataVencimento == FormatDateBR(AddDays(hoje, -n))
    ensures Entrega(boleto, cfg, hoje) <==> n <= Limite(cfg)
  {
    var venc := AddDays(hoje, -n);
    ParseFormatDateBRRoundTrip(venc);
    EntregaComChecagem(boleto, cfg, hoje, venc);
  }

  /** `diffDays(new Date(), dataVenc) > limite` as written, with the current moment
      `msOfDay` milliseconds into the day `hoje`: the rounded day count of a due date
      read at midnight. Before midday it agrees with the calendar-day check; from midday
      on it is the calendar-day check with a limit one day shorter, so it refuses every
      boleto the calendar-day check refuses. */
  function LagExceedsAsWritten(dataVencimento: string, hoje: Date, msOfDay: int, limite: int): (r: bool)
    requires Valid(hoje) && 0 <= msOfDay < MsPerDay
    ensures r == LagExceeds(dataVencimento, hoje, if 2 * msOfDay >= MsPerDay then limite - 1 else limite)
    ensures LagExceeds(dataVencimento, hoje, limite) ==> r
  {
    match ParseDate(dataVencimento)
    case None => false
    case Some(venc) => DiffDaysRounded(hoje, msOfDay, venc) > limite
  }

  /** A boleto exactly `limite` days overdue, asked about in the afternoon, is refused by
      the check as written although its lag equals the limit, which the calendar-day
      check serves. */
  lemma AfternoonLagExceeds(dataVencimento: string, hoje: Date, msOfDay: int, limite: int)
    requires Valid(hoje) && MsPerDay <= 2 * msOfDay && msOfDay < MsPerDay
    requires AddDays(hoje, -limite).year >= 100 && dataVencimento == FormatDateBR(AddDays(hoje, -limite))
    ensures LagExceedsAsWritten(dataVencimento, hoje, msOfDay, limite)
    ensures !LagExceeds(dataVencimento, hoje, limite)
  {
    ParseFormatDateBRRoundTrip(AddDays(hoje, -limite));
  }

  /** An empty due date is not a date (`NaN`), and `NaN` is never over the limit: a
      boleto on the check list with no due date is served. */
  lemma EmptyDueDateServed(boleto: Boleto, cfg: ConfigBoleto, hoje: Date)
    requires Valid(hoje) && SituacaoVeiculo(boleto) in ComChecagem(cfg) && boleto.dataVencimento == ""
    ensures Entrega(boleto, cfg, hoje)
  {
    assert Trim("") == "";
    assert Split("", '/') == [[]];
  }

  /** An open boleto whose vehicle's situation is on neither list is not served: the
      regularisation reply, and no message. */
  lemma EntregaSemLista(boleto: Boleto, telefone: string, cliente: Cliente, hoje: Date)
    requires Valid(hoje) && boleto.situacaoBoleto == Aberto
    requires SituacaoVeiculo(boleto) !in ComChecagem(cliente.boleto)
    requires SituacaoVeiculo(boleto) !in EnvioDireto(cliente.boleto)
    ensures ProcessarBoletoEncontrado(boleto, telefone, cliente, hoje)
         == Resolution(GetResponseRegularizacao(CodigoFipe(boleto), cliente.respostas), [])
  {
  }

  /** Only the first vehicle of a boleto counts: the vehicles after it change nothing. */
  lemma FirstVehicleDecides(boleto: Boleto, v: BoletoVeiculo, rest1: seq<BoletoVeiculo>, rest2: seq<BoletoVeiculo>,
                            telefone: string, cliente: Cliente, hoje: Date)
    requires Valid(hoje)
    ensures ProcessarBoletoEncontrado(boleto.(veiculos := [v] + rest1), telefone, cliente, hoje)
         == ProcessarBoletoEncontrado(boleto.(veiculos := [v] + rest2), telefone, cliente, hoje)
  {
    var b1, b2 := boleto.(veiculos := [v] + rest1), boleto.(veiculos := [v] + rest2);
    assert b1.veiculos[0] == v && b2.veiculos[0] == v;
    assert CodigoFipe(b1) == CodigoFipe(b2) && SituacaoVeiculo(b1) == SituacaoVeiculo(b2);
    assert Entrega(b1, cliente.boleto, hoje) == Entrega(b2, cliente.boleto, hoje);
    assert b1.(veiculos := []) == b2.(veiculos := []);
    assert PixText(b1) == PixText(b2) && LinkBoleto(b1) == LinkBoleto(b2);
    assert ReplySucesso(b1, cliente.respostas) == ReplySucesso(b2, cliente.respostas);
    assert Envios(b1, telefone, Atomos(cliente)) == Envios(b2, telefone, Atomos(cliente));
  }

  /** A boleto that is not open triggers no message: a paid one gets the paid reply, any
      other state the regularisation reply for its first vehicle. */
  lemma NotOpenSendsNothing(boleto: Boleto, telefone: string, cliente: Cliente, hoje: Date)
    requires Valid(hoje) && boleto.situacaoBoleto != Aberto
    ensures ProcessarBoletoEncontrado(boleto, telefone, cliente, hoje).dispatches == []
    ensures boleto.situacaoBoleto == Baixado ==>
      ProcessarBoletoEncontrado(boleto, telefone, cliente, hoje).reply == cliente.respostas.boletoBaixado
    ensures boleto.situacaoBoleto != Baixado ==>
      ProcessarBoletoEncontrado(boleto, telefone, cliente, hoje).reply
        == GetResponseRegularizacao(CodigoFipe(boleto), cliente.respostas)
  {
  }

  /** A served boleto gets the success reply, the PIX code first when there is one and
      then the PDF link when there is one, both to the customer's phone digits. */
  lemma ServedSends(boleto: Boleto, telefone: string, cliente: Cliente, hoje: Date)
    requires Valid(hoje) && boleto.situacaoBoleto == Aberto && Entrega(boleto, cliente.boleto, hoje)
    ensures var r := ProcessarBoletoEncontrado(boleto, telefone, cliente, hoje);
      r.reply == ReplySucesso(boleto, cliente.respostas) && r.dispatches == Envios(boleto, telefone, Atomos(cliente))
  {
  }

  /** `??` falls back only on a missing value: a PIX code that is present but empty
      suppresses the PIX message even when the boleto has a typed line, and only the PDF
      link, if any, is sent. */
  lemma EmptyPixCodeSuppressesPix(boleto: Boleto, telefone: string, atomos: AtomosClient.Config)
    requires boleto.pix.Some? && boleto.pix.value.copiaCola == Some("")
    ensures forall i :: 0 <= i < |Envios(boleto, telefone, atomos)| ==>
      Envios(boleto, telefone, atomos)[i].body == MessageBody(DefaultCaption, Some(LinkBoleto(boleto)))
  {
  }

  /** The success reply for a template `a{{data_vencimento}}b{{valor_boleto}}`, with no
      `{` in `a`, `b` or the due date, is `a`, the due date, `b` and the amount. */
  lemma ReplySucessoFilled(boleto: Boleto, respostas: Respostas, a: string, b: string)
    requires respostas.sucesso == a + "{{data_vencimento}}" + b + "{{valor_boleto}}"
    requires '{' !in a && '{' !in b && '{' !in boleto.dataVencimento
    ensures ReplySucesso(boleto, respostas) == a + boleto.dataVencimento + b + boleto.valorBoleto
  {
    ReplyFilled(a, b, boleto.dataVencimento, boleto.valorBoleto);
  }

  // ---- the path without a boleto ----

  /** The video for the vehicle's kind, if the tenant configured one. */
  function VideoUrl(codigoFipe: Option<string>, revistoria: Revistoria): Option<string> {
    if IsMotocicleta(codigoFipe) then revistoria.videoMoto else revistoria.videoCarro
  }

  /** `processarVeiculoSemBoleto`: always the regularisation reply; an inspection video
      when the situation is on either list, media are enabled and the video's URL is not
      empty. */
  function ProcessarVeiculoSemBoleto(veiculo: VeiculoBuscar, telefone: string, cliente: Cliente): (r: Resolution)
    ensures r.reply == GetResponseRegularizacao(veiculo.codigoFipe, cliente.respostas)
    ensures |r.dispatches| <= 1
    ensures var situacao := veiculo.descricaoSituacao.GetOr("");
            var video := VideoUrl(veiculo.codigoFipe, cliente.revistoria);
      r.dispatches != [] <==>
        (situacao in EnvioDireto(cliente.boleto) || situacao in ComChecagemSemBoleto(cliente.boleto)) &&
        cliente.revistoria.enviarMidia && video.Some? && video.value != []
    ensures r.dispatches != [] ==>
      r.dispatches[0].body == MessageBody(DefaultCaption, VideoUrl(veiculo.codigoFipe, cliente.revistoria)) &&
      r.dispatches[0].to == NormalizePhone(telefone) && r.dispatches[0].from == cliente.tokenCanal
  {
    var situacao := veiculo.descricaoSituacao.GetOr("");
    var permitido := situacao in EnvioDireto(cliente.boleto) || situacao in ComChecagemSemBoleto(cliente.boleto);
    var video := VideoUrl(veiculo.codigoFipe, cliente.revistoria);
    var envios := if permitido && cliente.revistoria.enviarMidia && video.Some? && video.value != []
                  then [SendVideo(Atomos(cliente), telefone, video.value, None)] else [];
    Resolution(GetResponseRegularizacao(veiculo.codigoFipe, cliente.respostas), envios)
  }

  /** With no check list configured, the two paths disagree: the boleto path checks
      `INADIMPLENTE` against the limit, the path without a boleto sends no video for it
      unless it is on the direct list. */
  lemma DefaultCheckListsDiffer(cfg: ConfigBoleto)
    requires cfg.situacoesComChecagem.None?
    ensures "INADIMPLENTE" in ComChecagem(cfg)
    ensures "INADIMPLENTE" !in ComChecagemSemBoleto(cfg)
  {
  }

  // ---- the whole request ----

  /** The first day of the due-date window: a copy of today with
      `setDate(getDate() - diasAntes)`. */
  function Inicio(hoje: Date, cfg: ConfigBoleto): (r: Date)
    requires Valid(hoje)
    ensures Valid(r) && DiffDays(hoje, r) == cfg.diasAntes
  {
    SetDate(hoje, hoje.day - cfg.diasAntes)
  }

  /** The last day of the due-date window: a copy of today with
      `setDate(getDate() + diasDepois)`. */
  function Fim(hoje: Date, cfg: ConfigBoleto): (r: Date)
    requires Valid(hoje)
    ensures Valid(r) && DiffDays(r, hoje) == cfg.diasDepois
  {
    SetDate(hoje, hoje.day + cfg.diasDepois)
  }

  /** The ERP query for a plate: the window's two days written `dd/mm/yyyy`, texts the
      ERP reads back as those very days (for years from 100 on). */
  function Consulta(placa: string, hoje: Date, cfg: ConfigBoleto): (r: ListarParams)
    requires Valid(hoje)
    ensures r.placa == placa
    ensures Inicio(hoje, cfg).year >= 100 ==> ParseDate(r.dataVencimentoInicial) == Some(Inicio(hoje, cfg))
    ensures Fim(hoje, cfg).year >= 100 ==> ParseDate(r.dataVencimentoFinal) == Some(Fim(hoje, cfg))
  {
    var inicio, fim := Inicio(hoje, cfg), Fim(hoje, cfg);
    assert inicio.year >= 100 ==> ParseDate(FormatDateBR(inicio)) == Some(inicio) by {
      if inicio.year >= 100 { ParseFormatDateBRRoundTrip(inicio); }
    }
    assert fim.year >= 100 ==> ParseDate(FormatDateBR(fim)) == Some(fim) by {
      if fim.year >= 100 { ParseFormatDateBRRoundTrip(fim); }
    }
    ListarParams(placa, FormatDateBR(inicio), FormatDateBR(fim))
  }

  /** The window lies the days before behind today and the days after ahead of it; with
      both counts at least zero and adding up to at most 30, as the configuration rules
      demand, it is non-empty and spans at most 30 days. */
  lemma JanelaSpan(hoje: Date, cfg: ConfigBoleto)
    requires Valid(hoje)
    ensures DiffDays(hoje, Inicio(hoje, cfg)) == cfg.diasAntes
    ensures DiffDays(Fim(hoje, cfg), hoje) == cfg.diasDepois
    ensures DiffDays(Fim(hoje, cfg), Inicio(hoje, cfg)) == cfg.diasAntes + cfg.diasDepois
    ensures 0 <= cfg.diasAntes && 0 <= cfg.diasDepois && cfg.diasAntes + cfg.diasDepois <= 30 ==>
      0 <= DiffDays(Fim(hoje, cfg), Inicio(hoje, cfg)) <= 30
  {
  }

  function SgaConfigOf(cliente: Cliente): SgaConfig {
    SgaConfig(cliente.baseUrl, cliente.tokenErp)
  }

  predicate Ativo(cliente: Option<Cliente>) {
    cliente.Some? && cliente.value.ativo
  }

  /** The window's two days as `processarBoleto` computes them, moving copies of today. */
  method DatasDaJanela(hoje: Date, cfg: ConfigBoleto) returns (dataInicial: Date, dataFinal: Date)
    requires Valid(hoje)
    ensures dataInicial == Inicio(hoje, cfg) && dataFinal == Fim(hoje, cfg)
  {
    dataInicial := hoje;
    dataInicial := SetDate(dataInicial, dataInicial.day - cfg.diasAntes);
    dataFinal := hoje;
    dataFinal := SetDate(dataFinal, dataFinal.day + cfg.diasDepois);
  }

  /** What the ERP answers to the boleto query for the tenant's window. */
  function Listagem(placa: string, hoje: Date, c: Cliente,
                    listarBoletos: (SgaConfig, ListarParams) -> Result<seq<Boleto>>): Result<seq<Boleto>>
    requires Valid(hoje)
  {
    listarBoletos(SgaConfigOf(c), Consulta(placa, hoje, c.boleto))
  }

  /** `processarBoleto`: an unknown or inactive tenant is refused; otherwise the ERP is
      asked for the plate's boletos due in the window, and the first boleto decides; with
      none the ERP is asked for the vehicle, and the first vehicle decides; a failed
      lookup is reported with its message. */
  method ProcessarBoleto(placa: string, telefone: string, cliente: Option<Cliente>, hoje: Date,
                         listarBoletos: (SgaConfig, ListarParams) -> Result<seq<Boleto>>,
                         buscarVeiculo: (SgaConfig, string) -> Result<seq<VeiculoBuscar>>)
    returns (r: Resolution)
    requires Valid(hoje)
    ensures !Ativo(cliente) ==> r == Resolution(ClienteNaoEncontrado, [])
    ensures Ativo(cliente) && Listagem(placa, hoje, cliente.value, listarBoletos).Err? ==>
      r == Resolution(ErroBuscarBoleto + Listagem(placa, hoje, cliente.value, listarBoletos).message, [])
    ensures Ativo(cliente) && Listagem(placa, hoje, cliente.value, listarBoletos).Ok? &&
            Listagem(placa, hoje, cliente.value, listarBoletos).value != [] ==>
      r == ProcessarBoletoEncontrado(Listagem(placa, hoje, cliente.value, listarBoletos).value[0], telefone, cliente.value, hoje)
    ensures Ativo(cliente) && Listagem(placa, hoje, cliente.value, listarBoletos) == Ok([]) ==>
      var busca := buscarVeiculo(SgaConfigOf(cliente.value), placa);
      (busca.Err? ==> r == Resolution(ErroBuscarVeiculo + busca.message, [])) &&
      (busca == Ok([]) ==> r == Resolution(VeiculoNaoEncontrado, [])) &&
      (busca.Ok? && busca.value != [] ==> r == ProcessarVeiculoSemBoleto(busca.value[0], telefone, cliente.value))
  {
    if cliente.None? || !cliente.value.ativo {
      return Resolution(ClienteNaoEncontrado, []);
    }
    var c := cliente.value;
    var sga := SgaConfigOf(c);

    var dataInicial, dataFinal := DatasDaJanela(hoje, c.boleto);
    var consulta := ListarParams(placa, FormatDateBR(dataInicial), FormatDateBR(dataFinal));
    assert consulta == Consulta(placa, hoje, c.boleto);

    var boletos: seq<Boleto> := [];
    var listagem := listarBoletos(sga, consulta);
    if listagem.Err? {
      return Resolution(ErroBuscarBoleto + listagem.message, []);
    }
    boletos := listagem.value;

    if |boletos| > 0 {
      return ProcessarBoletoEncontrado(boletos[0], telefone, c, hoje);
    }

    var veiculos: seq<VeiculoBuscar> := [];
    var busca := buscarVeiculo(sga, placa);
    if busca.Err? {
      return Resolution(ErroBuscarVeiculo + busca.message, []);
    }
    veiculos := busca.value;

    if |veiculos| == 0 {
      return Resolution(VeiculoNaoEncontrado, []);
    }
    r := ProcessarVeiculoSemBoleto(veiculos[0], telefone, c);
  }
}
