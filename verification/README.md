# Boleto resolution engine of mcpfinanceiro, modelled in Dafny

mcpfinanceiro answers a WhatsApp-style request that carries a vehicle plate and a phone
number on behalf of a tenant (an insurance association). It decides which reply text the
customer gets and which messages are pushed to the customer's phone: the PIX copy-and-paste
code, the link to the boleto's PDF, or an inspection video. The decision depends on the
tenant's configuration, on today's date and on what the tenant's ERP (Hinova SGA) returns
for the plate.

The Dafny project models that decision and the small pure helpers around it:

- `wrappers.dfy`: `Option` and `Result`.
- `text.dfy`: the JavaScript string operations the core relies on. These are `trim` with
  JavaScript's white-space set, `split` on one character, `replace(/\D/g, "")`,
  `padStart(2, "0")`, and `toString` of a number.
- `dates.dfy`: the part of JavaScript's `Date` the engine uses, on whole days. It covers
  the proleptic Gregorian calendar with consecutive day numbers, `new Date(y, m, d)` (with
  its 0..99 → 1900..1999 year rule and its roll-over of months and days), and `setDate`.
- `date_format.dfy`: `formatDateBR`, `parseDate` and `diffDays`.
- `template.dfy`: `replaceTemplate`, the regular-expression substitution of `{{ key }}`
  placeholders.
- `sga.dfy`: the shapes of the ERP records the engine reads.
- `atomos_client.dfy`: the request body the messaging client posts: sender, recipient
  digits, text and optional file URL.
- `boleto_service.dfy`: the loader's defaults (`getClienteComConfigs`),
  `processarBoleto`, `processarBoletoEncontrado`, `processarVeiculoSemBoleto` and
  `getResponseRegularizacao`.
- `cliente_schema.dfy`: the zod rules for creating a tenant and for patching its
  configuration, plus the effect of a patch on the stored configuration.
- `webhook_v2.dfy`: `normalizarPlaca` and `normalizarTelefone`.

The ERP lookups are function parameters that return a list or an error message. "Today" is
a parameter. The messages the engine fires are returned, in the order they are issued, as
the list of request bodies beside the reply text.

The model follows the code as written, in particular:

- The boleto that decides is the first one the ERP returns, not the one with the earliest
  due date.
- A boleto that is neither open nor paid gets the regularisation reply and no message. No
  inspection video is sent on that path.
- Situation labels are matched with `includes`, exactly, without trimming.
- The check of how far an open boleto is overdue uses `Math.round` of a millisecond
  difference measured from the current moment. The model's policy (`Entrega`) counts
  calendar days, the evident intent of a limit on days overdue. The rounding as written
  is modelled separately and reported under "## Findings".
- The engine returns the reply as a plain string; the model returns it with the messages
  sent.

## Model

| member | source | states |
|---|---|---|
| Text.Trim | src/services/boleto-service.ts:7 | the trimmed string neither starts nor ends with white space |
| Text.TrimPadded | src/services/boleto-service.ts:18 | trimming ignores any white space added on either side |
| Text.TrimClean | src/services/boleto-service.ts:18 | a string that neither starts nor ends with white space is its own trim |
| Text.Split | src/services/boleto-service.ts:20 | `split` yields at least one piece and no piece contains the separator |
| Text.SplitFirst | src/services/boleto-service.ts:23 | splitting at the first separator gives the piece before it, then the split of the rest |
| Text.SplitNoSeparator | src/services/boleto-service.ts:23 | a string without the separator splits into itself alone |
| Text.NatStr | src/services/boleto-service.ts:11-13 | `toString` of a natural number is its decimal digits, without a leading zero, reading back as the number |
| Text.IntStr | src/services/boleto-service.ts:13-14 | the year's `toString`: a minus sign exactly for a negative year, then the decimal digits of its magnitude |
| Text.Pad2NatStr | src/services/boleto-service.ts:11-12 | a day or month printed and padded to two places is two digits that read back as the number |
| Text.LeadingZero | src/services/boleto-service.ts:11-12 | the zero `padStart` adds does not change the value read back |
| Text.Filter | src/routes/webhook-v2.ts:9 | `replace` with a global class keeps exactly the accepted characters, in order, each as often as the input holds it |
| Text.FilterAppend | src/routes/webhook-v2.ts:9 | removing characters from a joined text is removing them from each part, then joining |
| Text.FilterAllKept | src/routes/webhook-v2.ts:9 | filtering a string whose characters are all kept returns it unchanged |
| Text.KeepDigits | src/services/atomos-client.ts:19-21 | `replace(/\D/g, "")` leaves only digits, every digit of the input as often as it occurs, in order |
| Text.KeepDigitsOfDigits | src/services/atomos-client.ts:19-21 | removing non-digits from a string of digits changes nothing |
| Dates.DaysInMonth | src/services/boleto-service.ts:21 | a month has 28 to 31 days |
| Dates.DaysBeforeMonthTable | src/services/boleto-service.ts:21 | the days before a month are the common-year table, plus one after February in a leap year |
| Dates.DayNumberOrdered | src/services/boleto-service.ts:27-30 | day numbers follow calendar order |
| Dates.DayNumberInjective | src/services/boleto-service.ts:27-30 | two valid dates with the same day number are the same date |
| Dates.Next | src/services/boleto-service.ts:154 | the following day is a valid date one day number later |
| Dates.Prev | src/services/boleto-service.ts:154 | the preceding day is a valid date one day number earlier |
| Dates.AddDays | src/services/boleto-service.ts:153-156 | moving `n` days gives a valid date exactly `n` day numbers away |
| Dates.MakeDate | src/services/boleto-service.ts:21 | `new Date(y, m - 1, d)` always builds a valid date, whatever the month and day numbers |
| Dates.MakeDateDayNumber | src/services/boleto-service.ts:24 | the constructor counts `day - 1` days on from the first of the month it lands in |
| Dates.MakeDateExact | src/services/boleto-service.ts:24 | for a year outside 0..99 the constructor builds exactly the date its arguments name |
| Dates.SetDate | src/services/boleto-service.ts:154 | `setDate(day)` lands `day - getDate()` days away from the date it changes |
| Dates.SetDateShifts | src/services/boleto-service.ts:155-156 | `setDate(getDate() + n)` is the date `n` days later |
| Dates.SetDateBack | src/services/boleto-service.ts:153-154 | `setDate(getDate() - n)` is the date `n` days earlier |
| DateFormat.FormatDateBR | src/services/boleto-service.ts:10-15 | `dd/mm/yyyy`: two digits for the day, a slash, two digits for the month, a slash, the year as `IntStr` writes it |
| DateFormat.ToNumber | src/services/boleto-service.ts:20 | `Number` of a field is a number exactly when the trimmed field holds only decimal digits (none reads as 0), and then it is their value |
| DateFormat.ToNumberDigits | src/services/boleto-service.ts:20 | `Number` reads a non-empty field of digits as its decimal value |
| DateFormat.FieldsToDate | src/services/boleto-service.ts:20-24 | a date is built exactly when there are three fields and the year, month and day fields are all numbers, and it is valid |
| DateFormat.DateOfFields | src/services/boleto-service.ts:21 | the constructor gives a valid date exactly when none of the three numbers is `NaN` |
| DateFormat.ParseDate | src/services/boleto-service.ts:17-25 | whatever `parseDate` builds is a valid date |
| DateFormat.FieldsRead | src/services/boleto-service.ts:20-24 | three numeric fields give `new Date(y, m - 1, d)` |
| DateFormat.ParseSlashed | src/services/boleto-service.ts:23-24 | a `dd/mm/yyyy` text is read day-month-year from its slash-separated fields |
| DateFormat.ParseDashed | src/services/boleto-service.ts:19-21 | a `yyyy-mm-dd` text is read year-month-day from its dash-separated fields |
| DateFormat.ParseFormatDateBR | src/services/boleto-service.ts:10-25 | reading back a printed date rebuilds it through the constructor, for any year from 0 on |
| DateFormat.ParseFormatDateBRRoundTrip | src/services/boleto-service.ts:10-25 | `parseDate(formatDateBR(d))` is `d` for every year from 100 on |
| DateFormat.ParseFormatISO | src/services/boleto-service.ts:19-21 | reading back a `yyyy-mm-dd` text rebuilds the date through the constructor |
| DateFormat.ParseFormatISORoundTrip | src/services/boleto-service.ts:19-21 | a `yyyy-mm-dd` text is read back as its date for every year from 100 on |
| DateFormat.DiffDaysAddDays | src/services/boleto-service.ts:27-30 | a date `n` days after another lies `n` whole days after it |
| DateFormat.DiffDays | src/services/boleto-service.ts:27-30 | moving the second date by the difference lands on the first, and the difference is 0 exactly for the same day |
| DateFormat.DiffDaysRounded | src/services/boleto-service.ts:27-30 | `Math.round` of the millisecond difference from `msOfDay` into a day is the calendar-day count, plus one from midday on |
| Template.MatchFrom | src/services/boleto-service.ts:38 | the regular expression matches at a position the shortest placeholder there, and none when no prefix is one |
| Template.ReplaceTemplate | src/services/boleto-service.ts:32-41 | the loop over the variables produces the rendered template |
| Template.Render | src/services/boleto-service.ts:32-41 | a template without `{` renders unchanged, whatever the variables |
| Template.PlaceholderInner | src/services/boleto-service.ts:38 | a placeholder is `{{`, at least one inner character that is not a brace, then `}}` |
| Template.PlaceholderUnique | src/services/boleto-service.ts:38 | two placeholders that begin the same text are the same length |
| Template.KeyDetermined | src/services/boleto-service.ts:38 | the text of a placeholder determines its variable name |
| Template.MatchAtPlaceholder | src/services/boleto-service.ts:38 | a text that starts with a placeholder for the name is matched exactly over it |
| Template.NoMatchWithoutBrace | src/services/boleto-service.ts:38 | no match starts at a character other than `{` |
| Template.NoMatchAtOther | src/services/boleto-service.ts:38 | no match for one name starts where a placeholder for another name begins |
| Template.PlaceholderReplaced | src/services/boleto-service.ts:38 | a placeholder for the name at the front is replaced by the value |
| Template.LiteralKept | src/services/boleto-service.ts:38 | text without `{` is kept as it is |
| Template.OtherPlaceholderKept | src/services/boleto-service.ts:38 | a placeholder for another name is kept as it is |
| Template.ReplaceAllClear | src/services/boleto-service.ts:38 | replacing in a text without a placeholder for the name changes nothing |
| Template.ReplacedClear | src/services/boleto-service.ts:38 | after replacing with a safe value no placeholder for the name is left |
| Template.RenderClear | src/services/boleto-service.ts:32-41 | with safe values no placeholder for any of the names survives rendering |
| Template.RenderOfClear | src/services/boleto-service.ts:32-41 | a text without placeholders for the names renders unchanged |
| Template.RenderIdempotent | src/services/boleto-service.ts:32-41 | with safe values, rendering twice with the same variables is rendering once |
| Template.RenderNotIdempotent | src/services/boleto-service.ts:32-41 | without safe values a second rendering can change the text: the value `{{` re-creates a placeholder |
| Template.ReplyFilled | src/services/boleto-service.ts:257-261 | a template `a{{data_vencimento}}b{{valor_boleto}}` renders to `a`, the due date, `b`, the amount |
| AtomosClient.SendMessage | src/services/atomos-client.ts:23-35 | text, channel token as sender, digits of the phone as recipient, and the file URL exactly when it is given and non-empty |
| AtomosClient.SendPix | src/services/atomos-client.ts:49-51 | the PIX code is the text, with no file |
| AtomosClient.SendPdf | src/services/atomos-client.ts:53-59 | the fixed caption with the boleto link as the file; an empty link sends no file |
| AtomosClient.SendVideo | src/services/atomos-client.ts:61-67 | the caption, the fixed one by default, with the video URL as the file; an empty URL sends no file |
| AtomosClient.SendToNormalizedPhone | src/services/atomos-client.ts:19-35 | normalising the phone before sending changes nothing: normalisation is idempotent |
| BoletoService.ComConfigs | src/services/boleto-service.ts:71-127 | a tenant exists exactly when its row and all three configuration rows exist; then its identity, tokens and day counts are copied, the base URL, the two lists and the limit are the stored values or the defaults (the Hinova URL, `ATIVO`, `INADIMPLENTE`, 2), media sending is off unless stored, and the replies and videos pass through |
| BoletoService.LoadedCheckList | src/services/boleto-service.ts:111-113 | for a loaded tenant both paths read the same check list, the stored one or `INADIMPLENTE` |
| BoletoService.DefaultCheckListsDiffer | src/services/boleto-service.ts:226-273 | with no check list the two paths' defaults disagree on `INADIMPLENTE` |
| BoletoService.GetResponseRegularizacao | src/services/boleto-service.ts:200-207 | the reply is one of the two regularisation templates, the vehicle one without a FIPE code |
| BoletoService.IsMotocicleta | src/services/boleto-service.ts:6-8 | a code is a motorcycle's exactly when it is present and starts with `81` once leading white space is removed |
| BoletoService.TrimEndPrefix | src/services/boleto-service.ts:6-8 | trimming the end of a code neither adds nor removes the prefix `81` |
| BoletoService.MotocicletaByPrefix | src/services/boleto-service.ts:6-8 | a padded code is a motorcycle's exactly when its content starts with `81` |
| BoletoService.RegularizacaoChoice | src/services/boleto-service.ts:200-207 | the motorcycle template exactly for codes starting with `81` once trimmed, the vehicle template otherwise |
| BoletoService.PixText | src/services/boleto-service.ts:246-247 | the PIX code when present, else the typed line when present, else empty |
| BoletoService.LinkBoleto | src/services/boleto-service.ts:248 | the boleto link when present, else the short link when present, else empty |
| BoletoService.Envios | src/services/boleto-service.ts:250-255 | one PIX message for a non-empty code, then one PDF message for a non-empty link, to the phone's digits |
| BoletoService.ProcessarBoletoEncontrado | src/services/boleto-service.ts:209-262 | messages only for an open boleto the policy serves, at most two, and one of the three replies; an open boleto the policy refuses (over the limit, or on neither list) gets the regularisation reply and no message |
| BoletoService.LagExceeds | src/services/boleto-service.ts:236-239 | only a due date that parses, so one whose trimmed text holds a `-` or a `/`, can be over the limit |
| BoletoService.Entrega | src/services/boleto-service.ts:224-244 | served only on one of the lists; always on the direct list alone, and always on the check list when the due date does not parse |
| BoletoService.EntregaComChecagem | src/services/boleto-service.ts:235-241 | on the check list a boleto is served exactly when it is at most the limit overdue, even when also on the direct list |
| BoletoService.LagBoundary | src/services/boleto-service.ts:235-241 | a boleto due `n` days ago is served on the check list exactly when `n` is at most the limit |
| BoletoService.LagExceedsAsWritten | src/services/boleto-service.ts:237-239 | the check as written is the calendar-day check before midday and the same check with a limit one day shorter from midday on, so it refuses every boleto the calendar-day check refuses |
| BoletoService.AfternoonLagExceeds | src/services/boleto-service.ts:237-239 | in the afternoon a boleto exactly the limit overdue is refused as written, although the calendar-day check serves it |
| BoletoService.EmptyDueDateServed | src/services/boleto-service.ts:236-239 | an empty due date is `NaN`, never over the limit, so the boleto is served |
| BoletoService.EntregaSemLista | src/services/boleto-service.ts:242-244 | an open boleto on neither list gets the regularisation reply and no message |
| BoletoService.FirstVehicleDecides | src/services/boleto-service.ts:228-230 | vehicles after the first change nothing |
| BoletoService.NotOpenSendsNothing | src/services/boleto-service.ts:215-222 | a paid boleto gets the paid reply, any other non-open state the regularisation reply, and neither sends anything |
| BoletoService.ServedSends | src/services/boleto-service.ts:246-261 | a served boleto gets the success reply and its PIX and PDF messages |
| BoletoService.EmptyPixCodeSuppressesPix | src/services/boleto-service.ts:246-252 | a present but empty PIX code suppresses the PIX message even when a typed line exists |
| BoletoService.ReplySucessoFilled | src/services/boleto-service.ts:257-261 | the success template is filled with the due date and the amount |
| BoletoService.ProcessarVeiculoSemBoleto | src/services/boleto-service.ts:264-291 | always the regularisation reply; a video exactly when the situation is on a list, media are on and the URL is non-empty |
| BoletoService.JanelaSpan | src/services/boleto-service.ts:149-156 | the window starts the days before behind today and ends the days after ahead of it, spanning at most 30 days for valid counts |
| BoletoService.Inicio | src/services/boleto-service.ts:153-154 | the window's first day is a valid date exactly the days before behind today |
| BoletoService.Fim | src/services/boleto-service.ts:155-156 | the window's last day is a valid date exactly the days after ahead of today |
| BoletoService.Consulta | src/services/boleto-service.ts:158-167 | the query carries the plate, and for years from 100 on its two texts read back as the window's first and last days |
| BoletoService.DatasDaJanela | src/services/boleto-service.ts:149-159 | the two `setDate` copies of today are the window's first and last days |
| BoletoService.ProcessarBoleto | src/services/boleto-service.ts:129-198 | inactive tenant refused; lookup errors reported with their message; the first boleto, else the first vehicle, decides; no vehicle is "not found" |
| ClienteSchema.BoletoValido | src/schemas/cliente.ts:3-13 | a full section is valid exactly when, sent as a patch with every field, the patch rules accept it; its day counts then fit in 30 days |
| ClienteSchema.ParsePerfil | src/schemas/cliente.ts:34 | only `SGA` and `SOUTH` are accepted, each as itself, and a missing profile is `SGA` |
| ClienteSchema.CreateValido | src/schemas/cliente.ts:28-39 | a valid create payload's sections pass as a patch, and its profile is absent, `SGA` or `SOUTH` |
| ClienteSchema.ParseCreate | src/schemas/cliente.ts:28-39 | a payload is accepted exactly when every rule holds; the defaults fill `ativo`, the profile and the base URL, a given profile is kept, and the name, tokens and three sections are copied |
| ClienteSchema.CreatedWindowAtMost30 | src/schemas/cliente.ts:3-13 | a valid boleto section gives a forward window of at most 30 days |
| ClienteSchema.PatchRefine | src/schemas/cliente.ts:47-59 | a patch fails exactly when both day counts are given and add up to more than 30; lacking the section or either count, it passes |
| ClienteSchema.PatchValido | src/schemas/cliente.ts:43-59 | the empty patch is accepted, and every accepted patch satisfies the refinement |
| ClienteSchema.Merge | src/routes/clientes.ts:105-110 | for each of the four fields, the update takes the value the patch gives and otherwise keeps the stored one |
| ClienteSchema.PatchBreaksInterval | src/schemas/cliente.ts:47-59 | a patch setting only one day count passes and leaves a 40-day window stored |
| ClienteSchema.PatchRefineStoredKeepsValid | src/routes/clientes.ts:105-110 | checking the sum after the update keeps a valid stored section valid |
| ClienteSchema.PatchRefineStoredStronger | src/schemas/cliente.ts:47-59 | every patch the stored check accepts, the schema's refinement accepts too |
| WebhookV2.ToUpperChars | src/routes/webhook-v2.ts:9 | `toUpperCase` is `ToUpper`, which maps each character through `UpperOf` (Basic Latin and Latin-1, `ß` to `SS`): every character of the result is upper case, and no white space or dash appears |
| WebhookV2.ToUpperOfUpper | src/routes/webhook-v2.ts:9 | upper-casing an upper-case string changes nothing |
| WebhookV2.ToUpperAppend | src/routes/webhook-v2.ts:9 | upper-casing a joined text is upper-casing each part, then joining |
| WebhookV2.NormalizarPlaca | src/routes/webhook-v2.ts:8-10 | the plate has no white space or dash and is upper case |
| WebhookV2.NormalizarPlacaAppend | src/routes/webhook-v2.ts:8-10 | normalising a joined answer is normalising each part, then joining |
| WebhookV2.NormalizarPlacaChar | src/routes/webhook-v2.ts:8-10 | a single white-space character or `-` vanishes, and any other character becomes its upper case |
| WebhookV2.NormalizarPlacaIdempotent | src/routes/webhook-v2.ts:8-10 | normalising a plate twice is normalising it once |
| WebhookV2.NormalizarTelefone | src/routes/webhook-v2.ts:12-14 | the result holds only digits, and a number already written in digits is unchanged |
| WebhookV2.NormalizarTelefoneDigits | src/routes/webhook-v2.ts:12-14 | only digits, every digit in order and as often as it occurs, and normalising again changes nothing |

## Left out

- The Supabase queries of `getClienteComConfigs` and of the tenant routes. The loader is
  modelled from the rows it reads (`ComConfigs`).
- The HTTP call of `sendMessage`: the URL, the headers, `fetch` and the error raised on a
  non-ok status. Only the request body is modelled.
- The fire-and-forget `.catch(() => {})` of each message. A failed message changes
  nothing the engine returns, so the model lists every message issued.
- The clock. "Today" is a parameter, and both reads of `new Date()` (the window and the
  lag check) are taken to fall on the same day.
- Time zones, daylight-saving changes and the millisecond range of JavaScript's `Date`.
  Dates are whole calendar days.
- `Number` on anything but white space and decimal digits (signs, decimals, exponents,
  hexadecimal). Such fields are read as `NaN`.
- `$` replacement patterns in template values, and variable names that would need escaping
  in a regular expression. The engine's two names are plain identifiers.
- The route handlers, request validation of the webhook payload, and the SGA client's
  HTTP calls. The SGA calls are parameters of `ProcessarBoleto`.
- `toUpperCase` beyond Basic Latin and Latin-1.
- The URL grammar of `z.string().url()`. It is a parameter `isUrl`.
- zod's error messages, its stripping of unknown keys and its type errors. Also left out:
  the difference between the schema's field names and the stored columns'.
- Template.ReplaceAll: carries no contract of its own. What it does to a text is stated
  by `PlaceholderReplaced`, `OtherPlaceholderKept`, `LiteralKept` and `ReplaceAllClear`.
- AtomosClient.NormalizePhone: carries no contract of its own. Its properties are those of
  `Text.KeepDigits` and `SendToNormalizedPhone`.
- Template.RenderIdempotent: holds only for safe values: non-empty, no `{`, and not starting
  with white space, `$`, `}` or a character of the name. `RenderNotIdempotent` shows that the
  restriction is needed.
- BoletoService.Entrega: counts calendar days. The rounding of `diffDays` from the current
  moment is modelled by `DiffDaysRounded` and `LagExceedsAsWritten` (see "## Findings").

## Findings

| source | as written | input that shows it | evidently intended | confidence | as-written member | corrected member |
|---|---|---|---|---|---|---|
| src/services/boleto-service.ts:27-30 | `diffDays(new Date(), dataVenc)` rounds the milliseconds from the current moment to the due date's midnight, so from midday on the lag is one day more | limit 2, due date two days ago, request at 15:00: lag 2.625 rounds to 3 > 2, the boleto is refused | a boleto overdue by at most the limit (in calendar days) is served, including one exactly at the limit | medium, not executed | BoletoService.AfternoonLagExceeds | BoletoService.LagBoundary |
| src/schemas/cliente.ts:47-59 | the patch refinement checks the sum of the day counts only when both are in the patch, and src/routes/clientes.ts:105-110 merges the patch into the stored row | stored 20 days before and 10 after, patch `{dias_antes_vencimento: 30}`: accepted, and 40 days are stored | the window stored after a patch spans at most 30 days, as for a new tenant | medium, not executed | ClienteSchema.PatchBreaksInterval | ClienteSchema.PatchRefineStoredKeepsValid |
