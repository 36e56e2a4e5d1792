# Chilkat POP3 bounce processing, modelled in Dafny

This project models the bounce-processing core of the Sitecore support patch
220196/220189 for the Email Experience Manager. The core has three parts:

- **ChilkatBounceInspector** decides whether a mailbox message is a bounce, and of which kind.
  - It first reads the Chilkat engine's code after a MIME-only examination (`InspectMime`).
  - When that is inconclusive, it fetches the full message and lets the engine examine it (`InspectEmail`).
  - If the engine finds nothing and the message is a multipart delivery report, it falls back to the report's `Status` field. The field has its dots removed, is parsed with `int.TryParse`, and is range-checked.
- **ChilkatPop3BounceReceiver** runs one polling cycle over a POP3 mailbox (`ProcessMessages`).
  - It counts and lists the messages, inspects each one, and keeps the bounces that are still retrievable and belong to this environment (`MapToBounce`).
  - It hands the batch to the caller's handler once, and deletes exactly those messages only after the handler completes.
- **ManagerRootsPop3ReceiversCollection** builds one receiver per manager root that gathers notifications (`Receivers`).
  - Each root's settings are mapped to POP3 settings.
  - A root whose settings fail `CreateReceiver`'s argument checks is logged and skipped.

Files:

- `wrappers.dfy`: `Option` and `Result`.
- `dotnet_text.dfy` (module `DotNetText`): `String.Replace(".", "")` and `int.TryParse` with the default number style.
- `reporting.dfy` (module `Reporting`): the bounce status, the header names, the message summary, the full message and the bounce record.
- `mailbox.dfy` (module `Mailbox`): the POP3 settings and the mailbox client.
  - `Pop3Client` is a class whose listing (`summaries`) and contents (`store`, keyed by unique id) are fields that `DeleteMultipleMails` updates.
  - A ghost trace `events` records every call made on the connection.
  - `FetchEmail` (the MailMan view) and `GetMail` are reads of the same map.
- `bounce_inspector.dfy` (module `ChilkatBounceInspection`): the two code tables, the delivery-status fallback, and the inspector class.
  - The Chilkat engine is three oracles fixed at construction: the MIME-only code, whether a full message is recognised, and the full-message code.
  - The engine's `BounceType` property is a field that `ExamineMime` and `ExamineEmail` set.
  - `InspectionOf` is the specification of `InspectEmail`.
- `pop3_bounce_receiver.dfy` (module `Pop3BounceReceiver`): the receiver.
  - Its `foreach` loop is specified by `ScanAll`, which applies `Step` to each listed message in listing order (its recursion peels off the last message).
  - The whole cycle is specified by `RunCycle`.
  - `AcceptedRecords` is an independent front-to-back reading of which messages yield records; `ScanCollectsAccepted` connects the two.
- `receivers_collection.dfy` (module `ReceiversCollection`): the settings mapping, `CreateReceiver`'s checks and the `Receivers` loop.

Some modelling choices worth knowing:

- **A null Status field.** In `InspectEmail`, calling `Replace` on a null Status field throws. `ProcessMessages` does not catch that exception, so it ends the whole cycle: no handler call, no delete. The model returns `Inspection.StatusUnavailable` (`NullStatusUnavailable` says exactly when), which ends the cycle as `CycleOutcome.StatusUnreadable` with neither a hand-off nor a delete (`NullStatusAborts`).
- **The handler.** The handler is a function from the batch to `bool`: `true` means it completed, `false` means its task faulted. Its call is written into the client's ghost trace as `Handled`, so its order relative to `Deleted` can be stated.
- **The context of a cycle.** A cycle's specification is parameterised by a `Context`: the mailbox contents, the engine's MIME-only codes, the inspector's verdict for each message, and the environment matcher.
  - `ChilkatPop3BounceReceiver.Runs(ctx, store)` says that `ctx` is exactly this receiver's context over `store`.
  - `ContextFor(store)` constructs that context.
  - `ProcessMessages` takes that context as a ghost argument.

Section 3.1 of RFC 3463 gives the class digit of an enhanced status code its meaning. The code instead removes the dots and range-checks the resulting number, and the model follows the code:
- `SingleDigitStatus` proves that this agrees with the class digit when all three parts are single digits.
- `TwoDigitDetailIgnored` and `TwoDigitDetailExample` prove that a two-digit detail such as `"4.7.12"` becomes 4712 and is left as no bounce.

## Model

| member | source | states |
|---|---|---|
| ChilkatBounceInspection.MimeTable | src/Sitecore.Support.220196.220189/EDS/Core/Reporting/ChilkatBounceInspector.cs:47-66 | a hard bounce exactly for codes 1, 5 and 12, a soft bounce exactly for codes 2, 4 and 11, and no bounce for every other code |
| ChilkatBounceInspection.FullTable | src/Sitecore.Support.220196.220189/EDS/Core/Reporting/ChilkatBounceInspector.cs:113-136 | a hard bounce exactly for code 1, a soft bounce exactly for codes 2, 3, 4, 5, 7, 10, 11 and 13, and no bounce otherwise (6, 8, 9, 12 and 14 included) |
| ChilkatBounceInspection.TablesDiffer | src/Sitecore.Support.220196.220189/EDS/Core/Reporting/ChilkatBounceInspector.cs:47-136 | the two tables differ exactly on codes 3, 5, 7, 10, 12 and 13: code 12 is hard against none, code 5 is hard against soft, and codes 3, 7, 10 and 13 are none against soft |
| ChilkatBounceInspection.StatusRange | src/Sitecore.Support.220196.220189/EDS/Core/Reporting/ChilkatBounceInspector.cs:95-106 | [200,300) is no bounce, [400,500) is soft and [500,600) is hard, each as an if-and-only-if; any other number leaves the verdict unset |
| ChilkatBounceInspection.DeliveryStatusVerdict | src/Sitecore.Support.220196.220189/EDS/Core/Reporting/ChilkatBounceInspector.cs:93-106 | the fallback is no bounce, soft or hard exactly when the dot-free Status field parses as an int in [200,300), [400,500) or [500,600) respectively |
| ChilkatBounceInspection.DottedCodeDigits | src/Sitecore.Support.220196.220189/EDS/Core/Reporting/ChilkatBounceInspector.cs:93 | removing the dots from `c.s.d` leaves `csd` |
| ChilkatBounceInspection.ThreeDigitRange | src/Sitecore.Support.220196.220189/EDS/Core/Reporting/ChilkatBounceInspector.cs:95-106 | a three-digit number falls in the range of its leading digit's class |
| ChilkatBounceInspection.SingleDigitStatus | src/Sitecore.Support.220196.220189/EDS/Core/Reporting/ChilkatBounceInspector.cs:93-106 | for single-digit parts `c.s.d`, the fallback gives the verdict of the class digit `c` (2 none, 4 soft, 5 hard, anything else unset) |
| ChilkatBounceInspection.HardStatusExample | src/Sitecore.Support.220196.220189/EDS/Core/Reporting/ChilkatBounceInspector.cs:103-105 | "5.1.1" is a hard bounce |
| ChilkatBounceInspection.SoftStatusExample | src/Sitecore.Support.220196.220189/EDS/Core/Reporting/ChilkatBounceInspector.cs:99-101 | "4.5.0" is a soft bounce |
| ChilkatBounceInspection.SuccessStatusExample | src/Sitecore.Support.220196.220189/EDS/Core/Reporting/ChilkatBounceInspector.cs:95-97 | "2.0.0" is no bounce |
| ChilkatBounceInspection.OutOfRangeStatusExample | src/Sitecore.Support.220196.220189/EDS/Core/Reporting/ChilkatBounceInspector.cs:95-106 | "7.0.0" falls in no range and leaves the verdict unset |
| ChilkatBounceInspection.LongStatusIgnored | src/Sitecore.Support.220196.220189/EDS/Core/Reporting/ChilkatBounceInspector.cs:93-106 | four or more digits with a non-zero lead never fall in a range |
| ChilkatBounceInspection.TwoDigitDetailIgnored | src/Sitecore.Support.220196.220189/EDS/Core/Reporting/ChilkatBounceInspector.cs:93-106 | a code `c.s.dd` with a non-zero class is left unset, whatever its class |
| ChilkatBounceInspection.TwoDigitDetailExample | src/Sitecore.Support.220196.220189/EDS/Core/Reporting/ChilkatBounceInspector.cs:93-106 | "4.7.12" is left as no bounce |
| ChilkatBounceInspection.NonNumericIgnored | src/Sitecore.Support.220196.220189/EDS/Core/Reporting/ChilkatBounceInspector.cs:93 | a field whose dot-free text starts with anything other than white space, a sign or a digit fails to parse and leaves the verdict unset |
| ChilkatBounceInspection.GarbageExample | src/Sitecore.Support.220196.220189/EDS/Core/Reporting/ChilkatBounceInspector.cs:93 | "garbage" leaves the verdict unset |
| ChilkatBounceInspection.InspectionEvents | src/Sitecore.Support.220196.220189/EDS/Core/Reporting/ChilkatBounceInspector.cs:82-85 | InspectEmail makes at most one call on the mailbox, a fetch of this message's unique id, and makes it exactly when the MIME-only verdict is no bounce |
| ChilkatBounceInspection.ChilkatBounceInspector.ShortCircuit | src/Sitecore.Support.220196.220189/EDS/Core/Reporting/ChilkatBounceInspector.cs:82-85 | a conclusive MIME-only verdict is the result, and then nothing is fetched |
| ChilkatBounceInspection.ChilkatBounceInspector.VanishedMessage | src/Sitecore.Support.220196.220189/EDS/Core/Reporting/ChilkatBounceInspector.cs:85-86 | a message whose fetch returns null is no bounce, after exactly one fetch |
| ChilkatBounceInspection.ChilkatBounceInspector.EngineWins | src/Sitecore.Support.220196.220189/EDS/Core/Reporting/ChilkatBounceInspector.cs:89-92 | when the engine recognises the full message, the result is the full-message table's image of its code, even when that image is no bounce |
| ChilkatBounceInspection.ChilkatBounceInspector.NotAReport | src/Sitecore.Support.220196.220189/EDS/Core/Reporting/ChilkatBounceInspector.cs:89-93 | not recognised and not a multipart report: no bounce |
| ChilkatBounceInspection.ChilkatBounceInspector.StatusFallback | src/Sitecore.Support.220196.220189/EDS/Core/Reporting/ChilkatBounceInspector.cs:93-107 | for an unrecognised multipart report, the Status verdict decides when it is set, and the result is no bounce otherwise |
| ChilkatBounceInspection.ChilkatBounceInspector.NullStatusUnavailable | src/Sitecore.Support.220196.220189/EDS/Core/Reporting/ChilkatBounceInspector.cs:82-93 | InspectEmail fails exactly when the MIME check is inconclusive, the message can be fetched, the engine does not recognise it, it is a multipart report and it has no Status field |
| ChilkatBounceInspection.ChilkatBounceInspector.ExamineMime | src/Sitecore.Support.220196.220189/EDS/Core/Reporting/ChilkatBounceInspector.cs:76 | the engine leaves the MIME-only code in BounceType |
| ChilkatBounceInspection.ChilkatBounceInspector.ExamineEmail | src/Sitecore.Support.220196.220189/EDS/Core/Reporting/ChilkatBounceInspector.cs:89 | the engine reports whether it recognised the message and leaves its full-message code in BounceType |
| ChilkatBounceInspection.ChilkatBounceInspector.InitBounceType | src/Sitecore.Support.220196.220189/EDS/Core/Reporting/ChilkatBounceInspector.cs:74-78 | returns the code the MIME examination left in BounceType |
| ChilkatBounceInspection.ChilkatBounceInspector.InspectMime | src/Sitecore.Support.220196.220189/EDS/Core/Reporting/ChilkatBounceInspector.cs:43-67 | the MIME-only table's image of the engine's code |
| ChilkatBounceInspection.ChilkatBounceInspector.InspectEmail | src/Sitecore.Support.220196.220189/EDS/Core/Reporting/ChilkatBounceInspector.cs:80-111 | the result is InspectionOf over the mailbox contents (the cascade the lemmas above pin down), and the only call on the mailbox is the fetch InspectionEvents names |
| DotNetText.RemoveDots | src/Sitecore.Support.220196.220189/EDS/Core/Reporting/ChilkatBounceInspector.cs:93 | the result has no dot, is no longer than the input, and holds exactly the input's non-dot characters |
| DotNetText.RemoveDotsConcat | src/Sitecore.Support.220196.220189/EDS/Core/Reporting/ChilkatBounceInspector.cs:93 | removing dots distributes over concatenation |
| DotNetText.RemoveDotsNoDots | src/Sitecore.Support.220196.220189/EDS/Core/Reporting/ChilkatBounceInspector.cs:93 | a string without dots is unchanged |
| DotNetText.LeadingWhiteSpan | src/Sitecore.Support.220196.220189/EDS/Core/Reporting/ChilkatBounceInspector.cs:93 | the leading white space TryParse skips is exactly the maximal white-space run at the start |
| DotNetText.TrailingWhiteSpan | src/Sitecore.Support.220196.220189/EDS/Core/Reporting/ChilkatBounceInspector.cs:93 | the trailing white space TryParse skips is exactly the maximal white-space run at the end |
| DotNetText.DigitsValue | src/Sitecore.Support.220196.220189/EDS/Core/Reporting/ChilkatBounceInspector.cs:93 | the decimal value of n digits is below 10^n |
| DotNetText.LeadingDigitBound | src/Sitecore.Support.220196.220189/EDS/Core/Reporting/ChilkatBounceInspector.cs:93 | with a non-zero leading digit, the decimal value of n digits is at least 10^(n-1) |
| DotNetText.TryParseInt32 | src/Sitecore.Support.220196.220189/EDS/Core/Reporting/ChilkatBounceInspector.cs:93 | any parsed value lies within the 32-bit int range |
| DotNetText.TryParseDigits | src/Sitecore.Support.220196.220189/EDS/Core/Reporting/ChilkatBounceInspector.cs:93 | a plain digit string parses to its decimal value, and fails exactly when that value exceeds Int32.MaxValue |
| Mailbox.IdSet | src/Sitecore.Support.220196.220189/EDS/Providers/CustomSmtp/Reporting/ChilkatPop3BounceReceiver.cs:138 | the set of ids handed to DeleteMultipleMails |
| Mailbox.Without | src/Sitecore.Support.220196.220189/EDS/Providers/CustomSmtp/Reporting/ChilkatPop3BounceReceiver.cs:138 | the listing after the delete holds exactly the summaries whose id was not deleted |
| Mailbox.Pop3Client.GetMailboxCount | src/Sitecore.Support.220196.220189/EDS/Providers/CustomSmtp/Reporting/ChilkatPop3BounceReceiver.cs:109 | the number of listed messages, with the call recorded |
| Mailbox.Pop3Client.GetMails | src/Sitecore.Support.220196.220189/EDS/Providers/CustomSmtp/Reporting/ChilkatPop3BounceReceiver.cs:112 | the listing, with the call recorded |
| Mailbox.Pop3Client.FetchEmail | src/Sitecore.Support.220196.220189/EDS/Core/Reporting/ChilkatBounceInspector.cs:85 | the stored message, or null for an unknown id, with the call recorded |
| Mailbox.Pop3Client.GetMail | src/Sitecore.Support.220196.220189/EDS/Providers/CustomSmtp/Reporting/ChilkatPop3BounceReceiver.cs:119 | the stored message, or null for an unknown id, with the call recorded |
| Mailbox.Pop3Client.DeleteMultipleMails | src/Sitecore.Support.220196.220189/EDS/Providers/CustomSmtp/Reporting/ChilkatPop3BounceReceiver.cs:138 | the named messages leave both the contents and the listing, with the call recorded |
| Pop3BounceReceiver.MapToBounce | src/Sitecore.Support.220196.220189/EDS/Providers/CustomSmtp/Reporting/ChilkatPop3BounceReceiver.cs:161-173 | Id is the Uidl and BounceType the verdict; MessageId and InstanceId both come from the batch-id header; CampaignId comes from the campaign header; ContactId comes from the message-id header; a missing header gives a null field |
| Pop3BounceReceiver.Ids | src/Sitecore.Support.220196.220189/EDS/Providers/CustomSmtp/Reporting/ChilkatPop3BounceReceiver.cs:138 | the batch's ids, in batch order |
| Pop3BounceReceiver.RecordFor | src/Sitecore.Support.220196.220189/EDS/Providers/CustomSmtp/Reporting/ChilkatPop3BounceReceiver.cs:116-130 | a listed message yields a record exactly when its verdict is a soft or hard bounce, it can be retrieved, and its environment header matches; the record is then a soft or a hard bounce |
| Pop3BounceReceiver.AcceptedRecords | src/Sitecore.Support.220196.220189/EDS/Providers/CustomSmtp/Reporting/ChilkatPop3BounceReceiver.cs:114-131 | the reference reading has no more records than listed messages, and each is a soft or a hard bounce |
| Pop3BounceReceiver.VisitKeepsRecord | src/Sitecore.Support.220196.220189/EDS/Providers/CustomSmtp/Reporting/ChilkatPop3BounceReceiver.cs:116-130 | the loop body keeps exactly the record RecordFor accepts, and stops exactly on an unreadable Status field |
| Pop3BounceReceiver.RunCycle | src/Sitecore.Support.220196.220189/EDS/Providers/CustomSmtp/Reporting/ChilkatPop3BounceReceiver.cs:105-142 | every cycle starts by querying the count, and the listing is requested second exactly when the mailbox is not empty |
| Pop3BounceReceiver.HandOff | src/Sitecore.Support.220196.220189/EDS/Providers/CustomSmtp/Reporting/ChilkatPop3BounceReceiver.cs:134-139 | the hand-off fails exactly when the batch is not empty and the handler fails; a delete happens exactly when the batch is not empty and the handler completes; the handler is called at most once, first and with the batch; any outcome names the batch |
| Pop3BounceReceiver.ScanExtends | src/Sitecore.Support.220196.220189/EDS/Providers/CustomSmtp/Reporting/ChilkatPop3BounceReceiver.cs:114-132 | without a fault, one more message is one more loop step |
| Pop3BounceReceiver.FaultStays | src/Sitecore.Support.220196.220189/EDS/Providers/CustomSmtp/Reporting/ChilkatPop3BounceReceiver.cs:114-132 | once the exception from a null Status field has been thrown, later messages change nothing |
| Pop3BounceReceiver.AcceptedRecordsAppend | src/Sitecore.Support.220196.220189/EDS/Providers/CustomSmtp/Reporting/ChilkatPop3BounceReceiver.cs:114-131 | the reference reading extends by the new message's record |
| Pop3BounceReceiver.ScanCollectsAccepted | src/Sitecore.Support.220196.220189/EDS/Providers/CustomSmtp/Reporting/ChilkatPop3BounceReceiver.cs:114-131 | without a fault, the collected batch is exactly the records of the accepted listed messages, in listing order |
| Pop3BounceReceiver.RecordMeaning | src/Sitecore.Support.220196.220189/EDS/Providers/CustomSmtp/Reporting/ChilkatPop3BounceReceiver.cs:116-130 | a record is kept only for a retrievable message of this environment; its type is the inspector's soft or hard verdict for that message, and its fields are that message's MapToBounce |
| Pop3BounceReceiver.AcceptedRecordsSound | src/Sitecore.Support.220196.220189/EDS/Providers/CustomSmtp/Reporting/ChilkatPop3BounceReceiver.cs:114-131 | every record comes from a listed message that RecordFor accepts |
| Pop3BounceReceiver.ScanFaultWitness | src/Sitecore.Support.220196.220189/EDS/Providers/CustomSmtp/Reporting/ChilkatPop3BounceReceiver.cs:114-116 | the loop stops only on a listed message whose Status field could not be read |
| Pop3BounceReceiver.CycleHandsAccepted | src/Sitecore.Support.220196.220189/EDS/Providers/CustomSmtp/Reporting/ChilkatPop3BounceReceiver.cs:109-139 | a completed cycle handed over exactly the accepted records (and nothing if none was accepted); a failed handler was given exactly those records, and they are not empty; an aborted cycle names a listed message with an unreadable Status field |
| Pop3BounceReceiver.ScanBatchBound | src/Sitecore.Support.220196.220189/EDS/Providers/CustomSmtp/Reporting/ChilkatPop3BounceReceiver.cs:112-131 | no more records than listed messages |
| Pop3BounceReceiver.ScanBatchBounces | src/Sitecore.Support.220196.220189/EDS/Providers/CustomSmtp/Reporting/ChilkatPop3BounceReceiver.cs:116-128 | every record is a soft or a hard bounce |
| Pop3BounceReceiver.ScanOnlyFetches | src/Sitecore.Support.220196.220189/EDS/Providers/CustomSmtp/Reporting/ChilkatPop3BounceReceiver.cs:114-132 | the loop only fetches: no hand-off, no delete |
| Pop3BounceReceiver.UnretrievableSkipped | src/Sitecore.Support.220196.220189/EDS/Providers/CustomSmtp/Reporting/ChilkatPop3BounceReceiver.cs:119-123 | a bounce whose full fetch returns null adds no record and does not stop the loop |
| Pop3BounceReceiver.EmptyMailbox | src/Sitecore.Support.220196.220189/EDS/Providers/CustomSmtp/Reporting/ChilkatPop3BounceReceiver.cs:109-110 | with no messages, the count is queried and nothing else happens |
| Pop3BounceReceiver.HandlerAtMostOnce | src/Sitecore.Support.220196.220189/EDS/Providers/CustomSmtp/Reporting/ChilkatPop3BounceReceiver.cs:134-137 | at most one hand-off per cycle, always with the non-empty batch the loop collected |
| Pop3BounceReceiver.DeleteFollowsHandler | src/Sitecore.Support.220196.220189/EDS/Providers/CustomSmtp/Reporting/ChilkatPop3BounceReceiver.cs:134-139 | a delete happens if and only if the handler completed on a non-empty batch; it is the last call, right after that hand-off, and names exactly the batch's ids in order |
| Pop3BounceReceiver.HandlerFailureKeepsMail | src/Sitecore.Support.220196.220189/EDS/Providers/CustomSmtp/Reporting/ChilkatPop3BounceReceiver.cs:137-138 | when the handler fails, nothing is deleted |
| Pop3BounceReceiver.HandlerFalseDeletesNothing | src/Sitecore.Support.220196.220189/EDS/Providers/CustomSmtp/Reporting/ChilkatPop3BounceReceiver.cs:134-138 | when the handler returns failure on the accepted records of a fault-free scan, the cycle ends as HandlerFailed with those records and no delete is made |
| Pop3BounceReceiver.HandlerTrueDeletesBatch | src/Sitecore.Support.220196.220189/EDS/Providers/CustomSmtp/Reporting/ChilkatPop3BounceReceiver.cs:134-138 | when the handler completes on the accepted records of a fault-free scan, the cycle completes with those records, and its last two calls are the hand-off and the delete of exactly their ids |
| Pop3BounceReceiver.NothingAcceptedNothingHanded | src/Sitecore.Support.220196.220189/EDS/Providers/CustomSmtp/Reporting/ChilkatPop3BounceReceiver.cs:134 | when no listed message is accepted, the cycle completes without calling the handler or deleting |
| Pop3BounceReceiver.NullStatusAborts | src/Sitecore.Support.220196.220189/EDS/Providers/CustomSmtp/Reporting/ChilkatPop3BounceReceiver.cs:114-116 | the first listed message whose Status field cannot be read ends the cycle as StatusUnreadable with its id, and neither the handler nor the delete is reached |
| Pop3BounceReceiver.ChilkatPop3BounceReceiver.constructor | src/Sitecore.Support.220196.220189/EDS/Providers/CustomSmtp/Reporting/ChilkatPop3BounceReceiver.cs:85-96 | keeps the settings, the inspector and the environment matcher |
| Pop3BounceReceiver.ChilkatPop3BounceReceiver.ContextFor | src/Sitecore.Support.220196.220189/EDS/Providers/CustomSmtp/Reporting/ChilkatPop3BounceReceiver.cs:116-126 | the context it builds is this receiver's context over the given contents: its engine, its matcher and InspectEmail's verdicts |
| Pop3BounceReceiver.ChilkatPop3BounceReceiver.ExamineMessage | src/Sitecore.Support.220196.220189/EDS/Providers/CustomSmtp/Reporting/ChilkatPop3BounceReceiver.cs:116-130 | one pass of the loop body: the record it keeps, whether the Status field was unreadable, and the calls it makes are those of VisitOf |
| Pop3BounceReceiver.ChilkatPop3BounceReceiver.CollectBounces | src/Sitecore.Support.220196.220189/EDS/Providers/CustomSmtp/Reporting/ChilkatPop3BounceReceiver.cs:113-132 | the batch, the fault and the calls of the `foreach` loop are those of ScanAll over the listing |
| Pop3BounceReceiver.ChilkatPop3BounceReceiver.HandOver | src/Sitecore.Support.220196.220189/EDS/Providers/CustomSmtp/Reporting/ChilkatPop3BounceReceiver.cs:134-139 | a non-empty batch is handed over once, and deleted only when the handler completes; the mailbox changes only then |
| Pop3BounceReceiver.ChilkatPop3BounceReceiver.ProcessListing | src/Sitecore.Support.220196.220189/EDS/Providers/CustomSmtp/Reporting/ChilkatPop3BounceReceiver.cs:110-139 | for a non-empty mailbox, once the count is recorded: outcome and calls are RunCycle's over the listing; the mailbox changes only when a non-empty batch was handed over and the handler completed |
| Pop3BounceReceiver.ChilkatPop3BounceReceiver.ProcessMessages | src/Sitecore.Support.220196.220189/EDS/Providers/CustomSmtp/Reporting/ChilkatPop3BounceReceiver.cs:105-142 | outcome and calls are RunCycle's over the mailbox as it was; the contents and listing lose exactly the handed-over ids when the cycle completes with a non-empty batch, and are unchanged otherwise |
| ReceiversCollection.MapSettings | src/Sitecore.Support.220196.220189/Modules/EmailCampaign/Core/MessageTransfer/ManagerRootsPop3ReceiversCollection.cs:95-103 | copies password, port, server and user name; UseSsl is POP3SSL; exactly one of UseSsl and StartTls is set |
| ReceiversCollection.CheckSettings | src/Sitecore.Support.220196.220189/Modules/EmailCampaign/Core/MessageTransfer/ManagerRootsPop3ReceiversCollection.cs:122-123 | settings pass if and only if the server is neither null nor empty and the port is positive |
| ReceiversCollection.ExpectedSettings | src/Sitecore.Support.220196.220189/Modules/EmailCampaign/Core/MessageTransfer/ManagerRootsPop3ReceiversCollection.cs:91-117 | no more receivers than roots, and every receiver's settings pass CreateReceiver's checks |
| ReceiversCollection.RejectedCount | src/Sitecore.Support.220196.220189/Modules/EmailCampaign/Core/MessageTransfer/ManagerRootsPop3ReceiversCollection.cs:105-113 | no more logged errors than roots |
| ReceiversCollection.NoRejections | src/Sitecore.Support.220196.220189/Modules/EmailCampaign/Core/MessageTransfer/ManagerRootsPop3ReceiversCollection.cs:105-113 | no error is logged if and only if every root that gathers notifications has passing settings |
| ReceiversCollection.EnabledCount | src/Sitecore.Support.220196.220189/Modules/EmailCampaign/Core/MessageTransfer/ManagerRootsPop3ReceiversCollection.cs:91-93 | no more enabled roots than roots |
| ReceiversCollection.EnabledRootsAccounted | src/Sitecore.Support.220196.220189/Modules/EmailCampaign/Core/MessageTransfer/ManagerRootsPop3ReceiversCollection.cs:91-117 | receivers plus logged refusals equal the enabled roots, so there are at most as many receivers as enabled roots |
| ReceiversCollection.ExpectedSettingsExact | src/Sitecore.Support.220196.220189/Modules/EmailCampaign/Core/MessageTransfer/ManagerRootsPop3ReceiversCollection.cs:91-117 | a settings record is produced if and only if some enabled root with passing settings maps to it |
| ReceiversCollection.DisabledRootIgnored | src/Sitecore.Support.220196.220189/Modules/EmailCampaign/Core/MessageTransfer/ManagerRootsPop3ReceiversCollection.cs:93 | a root that does not gather notifications adds neither a receiver nor a logged error |
| ReceiversCollection.SecondPortZeroExample | src/Sitecore.Support.220196.220189/Modules/EmailCampaign/Core/MessageTransfer/ManagerRootsPop3ReceiversCollection.cs:105-113 | three enabled roots with port 0 on the second: two receivers, from the first and third in that order, and one logged error |
| ReceiversCollection.ManagerRootsPop3ReceiversCollection.CreateReceiver | src/Sitecore.Support.220196.220189/Modules/EmailCampaign/Core/MessageTransfer/ManagerRootsPop3ReceiversCollection.cs:120-126 | fails, naming the argument that failed its check ("settings.Server" or "settings.Port"), exactly when the settings are refused; otherwise returns a new receiver over these settings that shares the collection's inspector and matcher |
| ReceiversCollection.ManagerRootsPop3ReceiversCollection.Receivers | src/Sitecore.Support.220196.220189/Modules/EmailCampaign/Core/MessageTransfer/ManagerRootsPop3ReceiversCollection.cs:88-118 | one new receiver per entry of ExpectedSettings, in manager-root order, each sharing the inspector and the matcher; one logged error per refused enabled root; no failure escapes |

## Left out

- The Chilkat engine (`ExamineMime`, `ExamineEmail`, `BounceType`, `IsMultipartReport`, `GetDeliveryStatusInfo`, `GetHeader`) is a foreign library. It appears only as oracles and as message fields.
- The licence unlock in the `ChilkatBounceInspector` constructor (ChilkatBounceInspector.cs:28-34) is a foreign call whose failure throws at construction. It is not modelled.
- The POP3 transport is network I/O and is replaced by the abstract `Pop3Client`. This covers `ChilkatPop3Client`, `CreatePop3Client` (ChilkatPop3BounceReceiver.cs:148-151), the cast at line 107, and MailMan. The modelled calls (`GetMailboxCount`, `GetMails`, `GetMail`, `FetchEmail`, `DeleteMultipleMails`) never fail in the model; in the source their exceptions leave `ProcessMessages`, and a delete that fails after the handler completed leaves the messages to be handled again in a later cycle.
  - The mailbox count is taken to be the length of the listing.
  - Clients are not modelled as disposed by `using`.
- `async`/`await` is left out. The handler is a synchronous step that completes or fails.
- Logging is left out. `Receivers` keeps a ghost count of logged errors, and the receiver's information message is dropped.
- `Factory.Instance` and `GetManagerRoots` are a configuration source. The manager roots' settings are an input sequence.
- The constructor overloads and `Assert.ArgumentNotNull` are left out. Dafny references are never null.
- The header names' string values are not part of this model. Headers are keyed by an enumeration of the four names used.
- ChilkatBounceInspection.DeliveryStatusVerdict: `int.TryParse` is modelled for an invariant culture. Culture-specific sign symbols, and the trailing NUL characters .NET also skips, are not modelled.
- Aliasing of the batch: the handler receives the very `List<Bounce>` whose ids are read for the delete afterwards (ChilkatPop3BounceReceiver.cs:137-138). The model passes an immutable sequence, so the handler is assumed not to change the batch or its records; a handler that did would change what gets deleted.
- Concurrency: every receiver shares one inspector (ManagerRootsPop3ReceiversCollection.cs:125), whose engine property `BounceType` is written and then read inside `InspectMime` and `InspectEmail`. Cycles sharing the inspector are assumed not to run concurrently; the model is sequential.
- Pop3BounceReceiver.ChilkatPop3BounceReceiver.ProcessMessages: the engine's `BounceType` that a cycle leaves in the shared inspector (the code of the last examination) is not stated; the same holds for `ExamineMessage`, `CollectBounces` and `ProcessListing`. Only `InspectEmail` states it for a single message.
- Pop3BounceReceiver.RecordMeaning: a record's id is the Uidl of the message `GetMail` returned. The model does not assume that this equals the id the message was listed under.
