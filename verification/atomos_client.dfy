/** The request the messaging client posts to `/message/send`: which channel sends it,
    to which phone, with which text and, for documents and videos, which file. The HTTP
    call itself is not part of this model. */
module AtomosClient {
  import opened Wrappers
  import opened Text

  /** The tenant's chat token (used only in the authorisation header) and channel token. */
  datatype Config = Config(tokenChat: string, tokenCanal: string)

  /** The `body` member: the text and, when there is one, the file's URL. */
  datatype MessageBody = MessageBody(text: string, fileUrl: Option<string>)

  /** The JSON object sent to the messaging API. */
  datatype SendRequest = SendRequest(body: MessageBody, from: string, to: string)

  /** The text of a document message and the default caption of a video. */
  const DefaultCaption := "Baixe aqui seu boleto"

  /** `normalizePhone`: only the decimal digits of the number are sent. */
  function NormalizePhone(phone: string): string {
    KeepDigits(phone)
  }

  /** The body `sendMessage` posts: the file URL is included only when it is given and is
      not the empty string, the sender is the channel token and the recipient the digits
      of the phone number. */
  function SendMessage(config: Config, text: string, to: string, fileUrl: Option<string>): (r: SendRequest)
    ensures r.body.text == text && r.from == config.tokenCanal
    ensures r.body.fileUrl.Some? <==> fileUrl.Some? && fileUrl.value != []
    ensures r.body.fileUrl.Some? ==> r.body.fileUrl == fileUrl
    ensures AllDigits(r.to) && IsSubsequence(r.to, to)
    ensures forall c :: IsDigit(c) ==> multiset(r.to)[c] == multiset(to)[c]
  {
    var file := if fileUrl.Some? && fileUrl.value != [] then fileUrl else None;
    SendRequest(MessageBody(text, file), config.tokenCanal, NormalizePhone(to))
  }

  /** `sendPix`: the PIX code as the text, with no file. */
  function SendPix(config: Config, to: string, pixCopiaCola: string): (r: SendRequest)
    ensures r.body == MessageBody(pixCopiaCola, None)
    ensures r.from == config.tokenCanal && r.to == NormalizePhone(to)
  {
    SendMessage(config, pixCopiaCola, to, None)
  }

  /** `sendPdf`: the fixed text with the boleto's link as the file. */
  function SendPdf(config: Config, to: string, linkBoleto: string): (r: SendRequest)
    ensures r.body.text == DefaultCaption
    ensures linkBoleto != [] ==> r.body.fileUrl == Some(linkBoleto)
    ensures linkBoleto == [] ==> r.body.fileUrl == None
    ensures r.from == config.tokenCanal && r.to == NormalizePhone(to)
  {
    SendMessage(config, DefaultCaption, to, Some(linkBoleto))
  }

  /** `sendVideo`: the caption, the fixed text when none is passed, with the video's URL
      as the file; an empty URL sends no file. */
  function SendVideo(config: Config, to: string, videoUrl: string, caption: Option<string>): (r: SendRequest)
    ensures caption.Some? ==> r.body.text == caption.value
    ensures caption.None? ==> r.body.text == DefaultCaption
    ensures videoUrl != [] ==> r.body.fileUrl == Some(videoUrl)
    ensures videoUrl == [] ==> r.body.fileUrl == None
    ensures r.from == config.tokenCanal && r.to == NormalizePhone(to)
  {
    SendMessage(config, caption.GetOr(DefaultCaption), to, Some(videoUrl))
  }

  /** Normalising the phone number before handing it over changes nothing: a request
      addressed to the digits of a number is the request addressed to the number. */
  lemma SendToNormalizedPhone(config: Config, text: string, to: string, fileUrl: Option<string>)
    ensures SendMessage(config, text, NormalizePhone(to), fileUrl) == SendMessage(config, text, to, fileUrl)
  {
    KeepDigitsOfDigits(KeepDigits(to));
  }
}
