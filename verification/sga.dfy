/** The shapes of the ERP's answers that the boleto engine reads (the ERP client's
    interfaces). Only the fields the engine looks at are kept; a field the ERP may send
    as `null` or leave out is an `Option`. */
module Sga {
  import opened Wrappers

  /** Where and as whom the ERP is called: the tenant's base URL and ERP token. */
  datatype SgaConfig = SgaConfig(baseUrl: string, tokenErp: string)

  /** The query of `listarBoletoAssociadoVeiculo`: a plate and a due-date window written
      `dd/mm/yyyy`. */
  datatype ListarParams = ListarParams(placa: string, dataVencimentoInicial: string, dataVencimentoFinal: string)

  /** A vehicle attached to a boleto: its FIPE code and its situation label. */
  datatype BoletoVeiculo = BoletoVeiculo(codigoFipe: Option<string>, situacaoVeiculo: Option<string>)

  /** The PIX data of a boleto. */
  datatype BoletoPix = BoletoPix(qrcode: Option<string>, copiaCola: Option<string>)

  /** A boleto; a `null` vehicle list reads like an empty one (`veiculos?.[0]`). */
  datatype Boleto = Boleto(
    linhaDigitavel: Option<string>,
    linkBoleto: Option<string>,
    shortLink: Option<string>,
    valorBoleto: string,
    dataVencimento: string,
    situacaoBoleto: string,
    pix: Option<BoletoPix>,
    veiculos: seq<BoletoVeiculo>)

  /** A vehicle found by plate when no boleto was. */
  datatype VeiculoBuscar = VeiculoBuscar(codigoFipe: Option<string>, descricaoSituacao: Option<string>)
}
