/** The validation rules for a tenant's configuration: the payload that creates a tenant
    and the payload that patches its configuration sections. Numbers arrive as JSON
    numbers (here reals); a URL check is a parameter. */
module ClienteSchema {
  import opened Wrappers
  import opened Dates
  import opened DateFormat
  import BoletoService

  /** `z.number().int()`: a number with no fractional part. */
  predicate IsInt(x: real) {
    x.Floor as real == x
  }

  /** A day count of the window: an integer from 0 to 30. */
  predicate DiasValido(x: real) {
    IsInt(x) && 0.0 <= x <= 30.0
  }

  /** The refinement on the two day counts. */
  predicate IntervaloValido(antes: real, depois: real) {
    antes + depois <= 30.0
  }

  // ---- the sections ----

  datatype ConfiguracoesBoleto = ConfiguracoesBoleto(
    diasAntes: real,
    diasDepois: real,
    situacoesPermitidasEnvio: seq<string>,
    diasInadimplentePermitido: real)

  /** `configuracoesBoletoBase`. */
  predicate BoletoBaseValido(b: ConfiguracoesBoleto) {
    DiasValido(b.diasAntes) && DiasValido(b.diasDepois) && |b.situacoesPermitidasEnvio| >= 1 &&
    IsInt(b.diasInadimplentePermitido) && b.diasInadimplentePermitido >= 0.0
  }

  /** `configuracoesBoletoSchema`: the base rules and the refinement. A full section is
      valid exactly when, sent as a patch with every field present, the patch rules accept
      it; its day counts then fit a window of at most 30 days. */
  function BoletoValido(b: ConfiguracoesBoleto): (r: bool)
    ensures r <==> BoletoPatchValido(FullPatch(b)) && PatchRefine(PatchConfiguracoes(Some(FullPatch(b)), None, None))
    ensures r ==> 0 <= b.diasAntes.Floor && 0 <= b.diasDepois.Floor && b.diasAntes.Floor + b.diasDepois.Floor <= 30
  {
    BoletoBaseValido(b) && IntervaloValido(b.diasAntes, b.diasDepois)
  }

  datatype ConfiguracoesRespostas = ConfiguracoesRespostas(
    responseSucesso: string,
    responseRegularizacaoMoto: string,
    responseRegularizacaoVeiculo: string,
    responseBoletoBaixado: string)

  /** Each of the four replies is non-empty. */
  predicate RespostasValido(r: ConfiguracoesRespostas) {
    |r.responseSucesso| >= 1 && |r.responseRegularizacaoMoto| >= 1 &&
    |r.responseRegularizacaoVeiculo| >= 1 && |r.responseBoletoBaixado| >= 1
  }

  /** A missing video is `undefined` or `null`, both accepted. */
  datatype ConfiguracoesRevistoria = ConfiguracoesRevistoria(enviarMidia: bool, videoMoto: Option<string>, videoCarro: Option<string>)

  predicate RevistoriaValido(r: ConfiguracoesRevistoria, isUrl: string -> bool) {
    (r.videoMoto.Some? ==> isUrl(r.videoMoto.value)) && (r.videoCarro.Some? ==> isUrl(r.videoCarro.value))
  }

  // ---- creating a tenant ----

  datatype Perfil = SGA | SOUTH

  /** The create payload; a field that may be left out is an `Option`. */
  datatype CreateClienteInput = CreateClienteInput(
    nome: string,
    ativo: Option<bool>,
    tokenErp: string,
    tokenChat: string,
    tokenCanal: string,
    perfilSistema: Option<string>,
    baseUrl: Option<string>,
    boleto: ConfiguracoesBoleto,
    respostas: ConfiguracoesRespostas,
    revistoria: ConfiguracoesRevistoria)

  /** The payload once parsed, defaults filled in. */
  datatype CreateCliente = CreateCliente(
    nome: string,
    ativo: bool,
    tokenErp: string,
    tokenChat: string,
    tokenCanal: string,
    perfilSistema: Perfil,
    baseUrl: string,
    boleto: ConfiguracoesBoleto,
    respostas: ConfiguracoesRespostas,
    revistoria: ConfiguracoesRevistoria)

  /** `z.enum(["SGA", "SOUTH"]).default("SGA")`. */
  function ParsePerfil(s: Option<string>): (r: Option<Perfil>)
    ensures r.Some? <==> s.None? || s.value == "SGA" || s.value == "SOUTH"
    ensures s.None? ==> r == Some(SGA)
    ensures s == Some("SGA") ==> r == Some(SGA)
    ensures s == Some("SOUTH") ==> r == Some(SOUTH)
  {
    if s.None? || s.value == "SGA" then Some(SGA)
    else if s.value == "SOUTH" then Some(SOUTH)
    else None
  }

  /** `createClienteSchema`: every rule holds. Whatever a valid create payload configures,
      a patch may configure too. */
  function CreateValido(i: CreateClienteInput, isUrl: string -> bool): (r: bool)
    ensures r ==> PatchValido(AsPatch(i), isUrl)
    ensures r ==> i.perfilSistema.None? || i.perfilSistema.value == "SGA" || i.perfilSistema.value == "SOUTH"
  {
    |i.nome| >= 1 && |i.tokenErp| >= 1 && |i.tokenChat| >= 1 && |i.tokenCanal| >= 1 &&
    ParsePerfil(i.perfilSistema).Some? &&
    (i.baseUrl.Some? ==> isUrl(i.baseUrl.value)) &&
    BoletoValido(i.boleto) && RespostasValido(i.respostas) && RevistoriaValido(i.revistoria, isUrl)
  }

  /** Parsing a create payload: rejected unless every rule holds; otherwise the tenant is
      active unless told otherwise, its ERP profile is `SGA` unless told otherwise, and its
      base URL is the default one unless given. */
  function ParseCreate(i: CreateClienteInput, isUrl: string -> bool): (r: Option<CreateCliente>)
    ensures r.Some? <==> CreateValido(i, isUrl)
    ensures r.Some? ==> r.value.ativo == i.ativo.GetOr(true)
    ensures r.Some? && i.perfilSistema.None? ==> r.value.perfilSistema == SGA
    ensures r.Some? && i.perfilSistema == Some("SOUTH") ==> r.value.perfilSistema == SOUTH
    ensures r.Some? && i.perfilSistema == Some("SGA") ==> r.value.perfilSistema == SGA
    ensures r.Some? ==> r.value.nome == i.nome && r.value.tokenErp == i.tokenErp &&
                        r.value.tokenChat == i.tokenChat && r.value.tokenCanal == i.tokenCanal
    ensures r.Some? ==> r.value.boleto == i.boleto && r.value.respostas == i.respostas &&
                        r.value.revistoria == i.revistoria
    ensures r.Some? ==> r.value.baseUrl == i.baseUrl.GetOr(BoletoService.DefaultBaseUrl)
    ensures r.Some? ==> BoletoValido(r.value.boleto) && RespostasValido(r.value.respostas)
  {
    if !CreateValido(i, isUrl) then None
    else
      Some(CreateCliente(i.nome, i.ativo.GetOr(true), i.tokenErp, i.tokenChat, i.tokenCanal,
                         ParsePerfil(i.perfilSistema).value, i.baseUrl.GetOr(BoletoService.DefaultBaseUrl),
                         i.boleto, i.respostas, i.revistoria))
  }

  /** The day counts of a valid boleto section are whole numbers from 0 to 30 that add up
      to at most 30, so the engine's lookup window for them runs forward and spans at
      most 30 days. */
  lemma CreatedWindowAtMost30(b: ConfiguracoesBoleto, cfg: BoletoService.ConfigBoleto, hoje: Date)
    requires BoletoValido(b) && Valid(hoje)
    requires cfg.diasAntes as real == b.diasAntes && cfg.diasDepois as real == b.diasDepois
    ensures 0 <= cfg.diasAntes <= 30 && 0 <= cfg.diasDepois <= 30
    ensures 0 <= DiffDays(BoletoService.Fim(hoje, cfg), BoletoService.Inicio(hoje, cfg)) <= 30
  {
    BoletoService.JanelaSpan(hoje, cfg);
  }

  // ---- patching the configuration ----

  /** A patch of the boleto section: every field may be left out. */
  datatype BoletoPatch = BoletoPatch(
    diasAntes: Option<real>,
    diasDepois: Option<real>,
    situacoesPermitidasEnvio: Option<seq<string>>,
    diasInadimplentePermitido: Option<real>)

  datatype RespostasPatch = RespostasPatch(
    responseSucesso: Option<string>,
    responseRegularizacaoMoto: Option<string>,
    responseRegularizacaoVeiculo: Option<string>,
    responseBoletoBaixado: Option<string>)

  datatype RevistoriaPatch = RevistoriaPatch(enviarMidia: Option<bool>, videoMoto: Option<string>, videoCarro: Option<string>)

  datatype PatchConfiguracoes = PatchConfiguracoes(
    boleto: Option<BoletoPatch>,
    respostas: Option<RespostasPatch>,
    revistoria: Option<RevistoriaPatch>)

  /** `configuracoesBoletoBase.partial()`: each field present obeys its rule. */
  predicate BoletoPatchValido(p: BoletoPatch) {
    (p.diasAntes.Some? ==> DiasValido(p.diasAntes.value)) &&
    (p.diasDepois.Some? ==> DiasValido(p.diasDepois.value)) &&
    (p.situacoesPermitidasEnvio.Some? ==> |p.situacoesPermitidasEnvio.value| >= 1) &&
    (p.diasInadimplentePermitido.Some? ==> IsInt(p.diasInadimplentePermitido.value) && p.diasInadimplentePermitido.value >= 0.0)
  }

  predicate NonEmptyIfPresent(s: Option<string>) {
    s.Some? ==> |s.value| >= 1
  }

  predicate RespostasPatchValido(p: RespostasPatch) {
    NonEmptyIfPresent(p.responseSucesso) && NonEmptyIfPresent(p.responseRegularizacaoMoto) &&
    NonEmptyIfPresent(p.responseRegularizacaoVeiculo) && NonEmptyIfPresent(p.responseBoletoBaixado)
  }

  predicate RevistoriaPatchValido(p: RevistoriaPatch, isUrl: string -> bool) {
    (p.videoMoto.Some? ==> isUrl(p.videoMoto.value)) && (p.videoCarro.Some? ==> isUrl(p.videoCarro.value))
  }

  /** The patch's refinement: only when both day counts are present is their sum checked.
      Leaving a day count out, or the whole boleto section, always satisfies it; two counts
      adding up to more than 30 are rejected. */
  function PatchRefine(p: PatchConfiguracoes): (r: bool)
    ensures p.boleto.None? || p.boleto.value.diasAntes.None? || p.boleto.value.diasDepois.None? ==> r
    ensures !r ==> p.boleto.Some? && p.boleto.value.diasAntes.Some? && p.boleto.value.diasDepois.Some? &&
                   p.boleto.value.diasAntes.value + p.boleto.value.diasDepois.value > 30.0
    ensures (p.boleto.Some? && p.boleto.value.diasAntes.Some? && p.boleto.value.diasDepois.Some? &&
             p.boleto.value.diasAntes.value + p.boleto.value.diasDepois.value > 30.0) ==> !r
  {
    match p.boleto
    case None => true
    case Some(b) => b.diasAntes.Some? && b.diasDepois.Some? ==> IntervaloValido(b.diasAntes.value, b.diasDepois.value)
  }

  /** `patchConfiguracoesSchema`: each section present obeys its rules, and the refinement
      holds. An empty patch is accepted; an accepted patch satisfies the refinement. */
  function PatchValido(p: PatchConfiguracoes, isUrl: string -> bool): (r: bool)
    ensures p.boleto.None? && p.respostas.None? && p.revistoria.None? ==> r
    ensures r ==> PatchRefine(p)
  {
    (p.boleto.Some? ==> BoletoPatchValido(p.boleto.value)) &&
    (p.respostas.Some? ==> RespostasPatchValido(p.respostas.value)) &&
    (p.revistoria.Some? ==> RevistoriaPatchValido(p.revistoria.value, isUrl)) &&
    PatchRefine(p)
  }

  /** A boleto section sent as a patch with every field present. */
  function FullPatch(b: ConfiguracoesBoleto): BoletoPatch {
    BoletoPatch(Some(b.diasAntes), Some(b.diasDepois), Some(b.situacoesPermitidasEnvio), Some(b.diasInadimplentePermitido))
  }

  /** The configuration sections of a create payload sent as a patch. */
  function AsPatch(i: CreateClienteInput): PatchConfiguracoes {
    var r, v := i.respostas, i.revistoria;
    PatchConfiguracoes(
      Some(FullPatch(i.boleto)),
      Some(RespostasPatch(Some(r.responseSucesso), Some(r.responseRegularizacaoMoto),
                          Some(r.responseRegularizacaoVeiculo), Some(r.responseBoletoBaixado))),
      Some(RevistoriaPatch(Some(v.enviarMidia), v.videoMoto, v.videoCarro)))
  }

  /** The stored boleto section after an update with the fields a patch gives. */
  function Merge(stored: ConfiguracoesBoleto, p: BoletoPatch): (r: ConfiguracoesBoleto)
    ensures p.diasAntes.Some? ==> r.diasAntes == p.diasAntes.value
    ensures p.diasAntes.None? ==> r.diasAntes == stored.diasAntes
    ensures p.diasDepois.Some? ==> r.diasDepois == p.diasDepois.value
    ensures p.diasDepois.None? ==> r.diasDepois == stored.diasDepois
    ensures p.situacoesPermitidasEnvio.Some? ==> r.situacoesPermitidasEnvio == p.situacoesPermitidasEnvio.value
    ensures p.situacoesPermitidasEnvio.None? ==> r.situacoesPermitidasEnvio == stored.situacoesPermitidasEnvio
    ensures p.diasInadimplentePermitido.Some? ==> r.diasInadimplentePermitido == p.diasInadimplentePermitido.value
    ensures p.diasInadimplentePermitido.None? ==> r.diasInadimplentePermitido == stored.diasInadimplentePermitido
  {
    ConfiguracoesBoleto(
      p.diasAntes.GetOr(stored.diasAntes),
      p.diasDepois.GetOr(stored.diasDepois),
      p.situacoesPermitidasEnvio.GetOr(stored.situacoesPermitidasEnvio),
      p.diasInadimplentePermitido.GetOr(stored.diasInadimplentePermitido))
  }

  /** A patch that the rules accept can still leave a stored configuration whose window
      is longer than 30 days: with 20 days before and 10 after stored, a patch setting
      only the days before to 30 passes, and 30 + 10 > 30. */
  lemma PatchBreaksInterval()
    ensures var stored := ConfiguracoesBoleto(20.0, 10.0, ["ATIVO"], 0.0);
            var b := BoletoPatch(Some(30.0), None, None, None);
      BoletoValido(stored) &&
      PatchValido(PatchConfiguracoes(Some(b), None, None), (u: string) => true) &&
      !BoletoValido(Merge(stored, b))
  {
    var stored := ConfiguracoesBoleto(20.0, 10.0, ["ATIVO"], 0.0);
    var b := BoletoPatch(Some(30.0), None, None, None);
    assert IsInt(20.0) && IsInt(10.0) && IsInt(30.0) && IsInt(0.0);
    assert Merge(stored, b).diasAntes + Merge(stored, b).diasDepois == 40.0;
  }

  /** The refinement checked against the stored section: the sum of the day counts the
      section will hold after the update. */
  predicate PatchRefineStored(stored: ConfiguracoesBoleto, p: PatchConfiguracoes) {
    match p.boleto
    case None => true
    case Some(b) => IntervaloValido(Merge(stored, b).diasAntes, Merge(stored, b).diasDepois)
  }

  /** With the refinement checked against the stored section, every accepted patch of a
      valid stored section leaves a valid section. */
  lemma PatchRefineStoredKeepsValid(stored: ConfiguracoesBoleto, p: PatchConfiguracoes)
    requires BoletoValido(stored) && p.boleto.Some? && BoletoPatchValido(p.boleto.value)
    requires PatchRefineStored(stored, p)
    ensures BoletoValido(Merge(stored, p.boleto.value))
  {
  }

  /** The stored check implies the schema's: it rejects no patch the schema would accept
      for a reason other than the sum exceeding 30 after the update. */
  lemma PatchRefineStoredStronger(stored: ConfiguracoesBoleto, p: PatchConfiguracoes)
    requires PatchRefineStored(stored, p)
    ensures PatchRefine(p)
  {
  }
}
