# Fax transmission and storage: a verified model

The program modelled sends and receives faxes over a modem (efax), prints them
(efix), and keeps them in folders under a desktop program (efax-gtk). The
project follows it from scan lines to modem bytes and back, and through the
state machines around that.

**The line codec and its transport.** A scan line is a list of run lengths, the
first white. `RunLines`, `BitMaps` with the table in `ByteRuns`, `PageGeometry`
and `PageLayout` are the operations on such lines; `RunLines.Expand` gives their
pixels, and every property of those operations is a property of pixels;
`PagePixels` has those of a whole page. `Keystream` and `LineCipher` are the
encryption of runs, over the words of `WordArithmetic`; `KeystreamHistory`
defines the keystream anew, without tables. `T4Tables` holds the code tables of
ITU-T Recommendation T.4, section 4.1, which `T4TableChecks` checks; `T4Coding`
and `T4Encoder` are the coder with its bit register; `T4Decoder` and
`T4LookupTables` the decoder with its five tables; `T4RoundTrip` connects the
two, and `T4Resync` is about damaged data. The decoder is proved for any code
book that is `Sound`, and the checks of the tables are made once. `Transport` is
the escaping of bytes, in both directions. `FaxSender`, `FaxPage`, `FaxReader`
and `FaxFrames` put a page together and take it apart, `SentPage` says what is
on the lines of it, `FaxLink` puts sender and receiver back to back, and
`LineLoss` is about the lines that encryption loses.

**PostScript.** `PostScript` has the line compressor and, as a function and as a
loop, the decoder that is printed in front of the page.

**State machines.** `PageSending` is the class 2 send loop, `Training` the class
1 training loop (ITU-T Recommendation T.30, section 5.3.6.1), `Controller` the
object that owns the child process and the worker thread.

**Folders.** `Folders` writes and reads the list of path names, `FaxPlaces` the
place of each fax, `FolderMoves` drags folders, `FolderPaths` and `FolderOrder`
say where folders are afterwards, and `FolderReread` what the tree is when the
program starts again. `FolderHistory` is about everything a user can do to folders,
`FolderParents` about what stays in what meanwhile, and `FolderRestart` about
writing and reading back after any history.

Methods are the program's loops over its variables and buffers; each is proved
against a function that says what it computes, and the lemmas are about those
functions. `Bits` holds numbers as bits, and lists.

What the proofs found about the code:

- A page that was received in full is reported as ended without a return to
  control unless its codes happen to fill whole bytes: the fifth end-of-line
  code is then completed only by the end-of-data pad (`FaxFrames.PageEnds`,
  `FaxLink.Transmit`). The comment at efax/efax.c:1060-1061 gives that result a
  narrower meaning, and the code was followed.
- A line whose encrypted total is not positive in 16 bits is dropped
  (`FaxFrames.PageArrives`), and with the fifth in a row whose total is 0 the rest
  of the page, which is then reported as good (`FaxLink.Transmit`). Every key has
  a line of at most 255 pixels that is dropped (`LineLoss.SomeLineIsLost`), and at
  a page's width there is one wherever the first bytes of the keystream take its
  total to 32768 (`LineLoss.SomeWideLineIsLost`).
- Reading an empty line leaves -1 where the first run would be. Combined with
  another line it then gives that line (`RunLines.OrNoRuns`). Saving an empty
  line on a thinned page saves nothing, and the first run of the line saved
  before is combined with the next line instead (`FaxPage.SavedLine`,
  `SentPage.Goes`).
- An end-of-line code of eleven zeros can be missed after damaged data, since a
  code word may take three of them (`T4Resync.FourteenNeeded`).
- A line of the path list with a text in front of its first divider makes no
  folder, but its names can then no longer be given to one
  (`Folders.ValidatorExact`).
- With local speed 4 training may never end, since the negotiation order picks
  speed 4 again after a failure (`Training.TrainingEnds`).
- The last page of a fax counts as accepted, if the one before was, when the
  modem hangs up at its end instead of saying so (`PageSending.Verdict`,
  `PageSending.AcceptedUnheard`).
- A page is left out exactly when the modem reports a hang-up without an error
  code as it is told the resolution of the next page, and connects later
  (`PageSending.EveryRun`, `PageSending.SkipsAfterHangup`).
- When closing down was asked for while a fax is being made up, and none is
  made, the controller becomes inactive without saying so, or starts receiving
  again (`Controller.QuitIsMissed`, `Controller.StandbyDoesResume`); when one is
  made it is still sent (`Controller.StillSent`).
- The prefix test for drops also refuses to move a folder into one beside it
  whose name merely begins with its own (`FolderMoves.Refused`,
  `FolderHistory.HarmlessRefused`).
- The names `normalbits` and `reversebits` are swapped: the first reverses bits.

`dafny verify dfyconfig.toml` checks everything.

## Model

| member | source | states |
|---|---|---|
| FaxLink.Transmit | efax/efax.c:805-918 | A page sent and received with the same pass phrase, through encryption, coding, fill, stuffing and back: the lines written out are, in order, exactly those with a positive encrypted total in 16 bits, up to the fifth in a row whose total is 0, after which the rest of the page is dropped; so they are all the lines sent if and only if each survives, and then they show the page pixel by pixel. The page ends with 0 exactly when it is dropped early or its codes fill whole bytes, otherwise with 1 |
| FaxLink.ReceiveData | efax/efax.c:1076-1149 | For any input at all the receiving loop ends, and writes out exactly what the call-by-call specification of the receiver gives; the result is 0 only when the return to control was seen, and then the data are read to their end |
| FaxPage.SendData | efax/efax.c:805-918 | The bits of the bytes sent are: fill and an EOL, each encrypted line coded and ended by whole bytes of fill and an EOL, five EOLs; and what the final flush adds is fill inside the last EOL or eight bits after it |
| FaxPage.Finish | efax/efax.c:913-916 | Flushing after the return to control keeps all five EOLs |
| FaxPage.Compose | efax/efax.c:817-849 | A line is combined with the header, and where lines are thinned it is either saved or combined with the line saved before; an empty line takes part as the program lets it, giving the other line |
| FaxPage.SentWidth | efax/efax.c:851-854 | Every line sent is exactly as wide as the page, whatever the header and the thinning |
| SentPage.SentPixels | efax/efax.c:817-858 | The lines sent, pixel by pixel, for any page: twenty blank lines and the input with the twenty-four rows of the header on lines 4 to 27, one by one, or two by two on a page sent at half its resolution and down to the end of the header on a page of standard resolution; each at the width of the page, and those without a pixel left out |
| SentPage.EveryLineSent | efax/efax.c:817-858 | Without blank lines every line or pair is sent: the number of lines, and the pixels of line j, for each kind of page |
| FaxFrames.PageArrives | efax/efax.c:978-1121 | For any lines that can be coded, fill between them and bytes after the data: which lines come back, deciphered, and in what order |
| FaxFrames.DeliveredAll | efax/efax.c:1079-1122 | All lines come back if and only if each survives |
| FaxFrames.PageEnds | efax/efax.c:1041-1053 | The call that ends a page returns EOF when the page seems to be over before its last EOL or when a byte follows that, and otherwise -2, since the end-of-data pad is then read |
| FaxFrames.WrittenFrames | efax/efax.c:1079-1122 | The receiver writes exactly the lines that the frames on the line call for, up to the fifth empty line in a row |
| LineLoss.SurvivalTest | efax/efax.c:889-892 | A line whose width and number of runs are moderate is lost if and only if its runs are the bytes of its own keystream |
| LineLoss.CipherTotal | efax/efax.c:889-892 | The encrypted total is at most the width plus 255 for each run, and is zero exactly for the line whose runs are the bytes of its keystream |
| LineLoss.SomeLineIsLost | efax/efax.c:1080-1080 | For every key there is a line of at most 255 pixels that can be coded and is lost |
| LineLoss.WideLineIsLost | efax/efax.c:1080-1080 | A line of any width a page may have, one white run with empty runs after it, can be coded and is lost when the keystream takes its total past the range of 16 bits |
| LineLoss.SomeWideLineIsLost | efax/efax.c:1080-1080 | For every width over 255 some such line is lost if and only if the bytes of the keystream add up to enough |
| LineLoss.NoneCut | efax/efax.c:1043-1046 | Without five lines in a row whose total is 0, those with a positive total all come back, and the page seems to end early only if its last line has total 0 |
| LineLoss.CutOff | efax/efax.c:1043-1046 | With five in a row, counting those before the page, the page is cut off there: what comes back is what comes back of the lines before the fifth |
| T4TableChecks.T4Sound | efax/efaxlib.c:2359-2422 | The T.4 tables are what the decoder needs: prefix-free, nonzero, at most 13 bits, long codes start with four zeros, at most three zeros at the end, fewer than eight at the start |
| T4LookupTables.LookupTables.constructor | efax/efaxlib.c:2319-2344 | The five tables of 512 entries hold, at every index, the entry that the code book calls for |
| T4LookupTables.AddCode | efax/efaxlib.c:2280-2290 | Exactly the windows that start with the code word get its entry, and no other entry changes |
| T4Decoder.DecodeCode | efax/efaxlib.c:2296-2308 | Where a code word of the current colour comes first, exactly it is emitted, exactly its bits are consumed, and the right table is next |
| T4Decoder.DecodeOther | efax/efaxlib.c:2319-2331 | Where none comes first, eleven zeros lead to fill, and anything else is skipped, one or five bits at a time, with nothing emitted |
| T4Decoder.DecodeFill | efax/efaxlib.c:2333-2335 | Any number of zeros and a one are consumed as one EOL |
| T4Decoder.DecodeEol | efax/efaxlib.c:517-533 | From every table enough zeros and a one are an EOL, and the white table is next |
| T4Decoder.Resync | efax/efaxlib.c:517-533 | From every decoder state, and whatever bits are pending, the end-of-file pad is decoded up to an EOL no later than its one |
| T4Resync.Recovers | efax/efax.c:993-1021 | Whatever bits come first and whatever state the decoder is in: with fourteen zeros, a one, and more bits after them, lines read one after another reach exactly the bits after the one, with the white table next |
| T4Resync.EndsInOne | efax/efaxlib.c:2333-2335 | Every line that the decoder ends, it ends at a one, with the white table next |
| T4Resync.NotEnough | efax/efaxlib.c:2319-2331 | Fewer than eleven zeros and a one, seen from the table of a colour, are not the end of a line: the next end is after that one |
| T4Resync.FourteenNeeded | efax/efaxlib.c:2319-2331 | Fourteen is exact: after the white code word for three pixels up to thirteen zeros and a one are not the end of the line |
| T4RoundTrip.DecodeLine | efax/efaxlib.c:113-141 | The codes of a line, any fill of eleven zeros or more, and a one: the decoder emits exactly the codes of the line, leaves exactly what follows, and is back in the white table |
| T4RoundTrip.RecombineEmits | efax/efaxlib.c:541-552 | Recombining make-up and terminating codes gives each run back, long runs cut to 2623 and negative ones wrapped |
| T4RoundTrip.LosslessRuns | efax/efaxlib.c:113-141 | Coding and recombining give the line back if and only if all its runs are from 0 to 2623 |
| FaxReader.DecodeMore | efax/efax.c:991-1021 | Bits that arrive later never change what is already decoded |
| FaxReader.EnoughLoads | efax/efax.c:993-1015 | Every call returns: two reads after the input has run out end the line from any state |
| FaxReader.Reader.ReadFaxRuns | efax/efax.c:978-1053 | The bit register, the table lookups and the run buffer compute the line that the specification gives for the pending bits and the input, from any state the reader can be in |
| FaxReader.Combine | efax/efax.c:1031-1039 | Codes are recombined in place, and the total is kept in 16 bits |
| FaxReader.KeptCodes | efax/efax.c:1020-1031 | Of more codes than fit the first are kept, one fewer than the buffer holds |
| T4Encoder.Encoder.PutCode | efax/efaxlib.c:94-105 | Bytes written followed by pending bits are the earlier ones followed by the code word; a flush appends the low byte of the register |
| T4Encoder.DrainKeepsBits | efax/efaxlib.c:99-102 | Moving whole bytes from the register to the buffer changes no bit |
| T4Encoder.Encoder.RunToCode | efax/efaxlib.c:113-141 | As long as a line gives fewer than MAXCODES bytes, bytes and pending bits grow by exactly the codes of its runs |
| FaxSender.LineFits | efax/efaxlib.h:18-28 | The codes of a line take at most 25 bits a pair |
| FaxSender.PutLine | efax/efax.c:893-900 | A line with fewer than MAXRUNS codes is put out with no code dropped, filled with whole bytes to the minimum length and no further, and ended by an EOL |
| Transport.StuffRoundTrip | efax/efaxos.c:147-169 | Stuffed bytes and DLE-ETX read back as the bytes through both bit orders and then -2; what comes after is untouched |
| Transport.Escaped | efax/efaxos.c:147-169 | What each character after a DLE reads as, and what is left of the input |
| Transport.DataReadOn | efax/efax.c:1137-1137 | Reading on to the end of stuffed data leaves exactly what comes after it |
| Transport.TFile.SendBuf | efax/efaxio.c:113-142 | The writes put together are the stuffed data in the output bit order; each holds 64 or 65 bytes, and the last one what is left |
| Transport.TFile.GetData | efax/efaxos.c:147-169 | The next data character, for every input, known escapes or not |
| Transport.ReverseTwice | efax/efaxlib.c:2241-2248 | The bit order that reverses bytes undoes itself |
| Transport.ReversedDigits | efax/efaxlib.c:2241-2248 | The reversed byte has the same binary digits the other way round |
| Transport.InitBitTables | efax/efaxlib.c:2241-2248 | The two tables built |
| Keystream.Generator.Encrypt | efax/hc128.h:81-117 | The words depend on the key and on their index only: not on what the five arrays held before, nor on how many words are asked for |
| Keystream.WordsPrefix | efax/hc128.h:99-114 | A shorter call gives the beginning of a longer one |
| KeystreamHistory.StreamIs | efax/hc128.h:49-117 | Word i of the keystream is the word of a definition without tables: three histories of words, each word a sum and exclusive or of words at fixed distances before it, rotated and shifted (2, 7, 15 and 16 for the expanded key; 3, 10, 511 and 512 for the two tables, and 12 for the words picked) |
| KeystreamHistory.ExpansionIs | efax/hc128.h:53-60 | The words of the expanded key, by that definition |
| KeystreamHistory.PickP | efax/hc128.h:17-32 | A word picks an entry of each half of a table by its value modulo 256 and by its value over 65536 modulo 256 |
| KeystreamHistory.CharWordIs | efax/hc128.h:85-87 | A character of the key, negative or not, is taken modulo 2^32 |
| WordArithmetic.RotatedRight | efax/hc128.h:11-11 | Rotating a word to the right by n: its quotient by 2^n plus its remainder times 2^(32-n) |
| WordArithmetic.RotatedLeft | efax/hc128.h:10-10 | Rotating it to the left by n: its remainder by 2^(32-n) times 2^n plus its quotient |
| WordArithmetic.RotateBack | efax/hc128.h:10-11 | Each rotation undoes the other |
| WordArithmetic.XorBit | efax/hc128.h:10-15 | The exclusive or, bit by bit |
| LineCipher.CipherTwice | efax/efax.c:1115-1118 | Enciphering twice gives every line back |
| LineCipher.CipherBits | efax/efax.c:889-892 | A run has the low eight bits of its keystream word put on it by exclusive or, bit by bit, and keeps its others |
| LineCipher.KeyRepeats | efax/efax.c:877-880 | The key is the pass phrase, repeated |
| LineCipher.CipherRange | efax/efax.c:889-892 | Runs of up to 2432 stay within 0 to 2559, so an encrypted line is never cut when coded |
| LineCipher.XorLine | efax/efax.c:875-892 | The runs in the buffer are enciphered in place |
| RunLines.RunOr | efax/efaxlib.c:285-341 | The pixels of the result, written back over the first line, are the pixelwise or, the shorter line extended with white; its width is what is returned, and it has at most as many runs as both lines |
| RunLines.OrInputPixels | efax/efaxlib.c:285-341 | The same for any two input lines, an empty one included |
| RunLines.OrNoRuns | efax/efaxlib.c:285-341 | A line read without runs, which leaves the mark -1 in the buffer, gives the other line run by run |
| RunLines.OrAt | efax/efaxlib.c:285-341 | The or of two lines, pixel by pixel, and its length |
| RunLines.OrLinesPixels | efax/efaxlib.c:285-341 | The run-length merge shows the pixelwise or |
| ByteRuns.TableRight | efax/efaxlib.c:222-244 | The table of digits holds the runs of every byte, for all 256 of them |
| ByteRuns.InitTable | efax/efaxlib.c:256-262 | The loop over the string of all digits finds where the runs of each byte begin |
| BitMaps.BitToRun | efax/efaxlib.c:250-277 | With that table, the runs show the bits of the bit map |
| BitMaps.RunToBit | efax/efaxlib.c:1813-1845 | The bits show the pixels of the runs, zero-length ones included, made up to whole bytes with the last colour; the count is the pixels over eight, rounded up |
| BitMaps.ThereAndBack | efax/efaxlib.c:254-277 | A bit map turned into runs and back is the same bit map |
| PageGeometry.PaddedPixels | efax/efaxlib.c:147-159 | Padding or truncating gives the old pixels cut off, or extended with white, at the new width |
| PageGeometry.XPad | efax/efaxlib.c:147-159 | The loop over the run buffer computes that line |
| PageGeometry.ShiftedPixels | efax/efaxlib.c:165-184 | A shift to the right adds white pixels; one to the left takes away exactly the first pixels, up to the whole line |
| PageGeometry.DroppedTooMuch | efax/efaxlib.c:165-184 | A shift to the left past the end leaves a negative last run |
| PageGeometry.XShift | efax/efaxlib.c:165-184 | The loop over the run buffer computes that line and the change in width |
| PageGeometry.ScaledBoundary | efax/efaxlib.c:188-196 | Every colour boundary b of the scaled line is at b times the scale over 256, rounded, with no drift from run to run |
| PageGeometry.ScaleNearest | efax/efaxlib.c:188-196 | A scaled position is the nearest one, and the higher of two that are equally near |
| PageGeometry.ScaledColour | efax/efaxlib.c:188-196 | Between two scaled boundaries each pixel has the colour of the run between them |
| PageGeometry.XScale | efax/efaxlib.c:188-196 | The loop over the run buffer computes that line and its width |
| PageLayout.PlacedLine | efax/efix.c:438-442 | A line that is scaled, shifted and padded in turn shows the scaled pixels moved and fitted to w pixels if and only if it is not shifted left by more than its scaled width or has an odd number of runs |
| PageLayout.PlacePage | efax/efix.c:411-458 | The page loop writes the blank rows, the input lines with the overlay on them, placed, and repeated or left out by the vertical scale, and blank rows to the end |
| PageLayout.PageHeight | efax/efix.c:411-458 | A page has exactly h rows if and only if it is shifted down by at most h |
| PageLayout.PageRowAt | efax/efix.c:446-452 | The rows on which each input line is found |
| PageLayout.RowFloor | efax/efix.c:446-446 | The first row of an input line is its scaled position rounded down |
| PagePixels.PageShown | efax/efix.c:411-458 | Every row of the page from the arguments alone: white down to the vertical shift; then, on the rows from its own scaled position to that of the next line, each input line that is not left out, with the pixelwise or of the overlay on it, its pixels scaled, moved and fitted (wherever PlacedLine allows it); and white to the end |
| PagePixels.ScaledPixels | efax/efaxlib.c:188-196 | Scaling the runs of a line scales its pixels: each reaches from its own scaled position to that of the next |
| PagePixels.StretchAt | efax/efaxlib.c:188-196 | Pixel by pixel, what scaling gives |
| PagePixels.RowHasLine | efax/efix.c:446-452 | Every row between the first line and the last belongs to one of them |
| PostScript.WritePage | efax/efaxlib.c:1643-1693 | Whatever follows, the decoder shows every line of the page, complemented, having read exactly its code, if and only if the lines are not empty; copies never reach back before the first line |
| PostScript.PsFile.PsWrite | efax/efaxlib.c:1643-1693 | One line: the decoder ends with it in its buffer, and its code has at most one byte more in 127; a line that repeats the one before is one byte; any other is the code of the pieces that the rules ask for: copies of more than two bytes first, then runs of more than four, each as long as can be, and data only where neither begins; the coding loop ends |
| PostScript.HexAdded | efax/efaxlib.c:1621-1626 | Digits and line breaks put out for a byte read back as that byte |
| PostScript.ComplementBits | efax/efaxlib.c:1633-1633 | Every bit of a byte put out is the other one |
| PostScript.Interpreter.ReadBuf | efax/efaxlib.c:1548-1573 | The decoding loop of the prolog computes the specification of the decoder |
| PostScript.RepeatLine | efax/efaxlib.c:1655-1659 | A line like the one before takes one byte |
| PostScript.DataPlays | efax/efaxlib.c:1548-1573 | A byte up to 127 and that many more put these into the buffer of the decoder |
| PostScript.RunPlays | efax/efaxlib.c:1548-1573 | The byte 255, a count and a value put that many equal bytes there |
| PostScript.SkipPlays | efax/efaxlib.c:1548-1573 | A byte from 128 to 254 passes over 1 to 127 bytes, which stay as they are |
| PageSending.EveryRun | efax/efax.c:2085-2177 | In every run, whatever the modem answers: no page goes out after a later one, none more than three times in a row, a run that ends without error or hang-up has had every page accepted exactly once, and pages are left out if and only if one is sent after another has been passed over |
| PageSending.Verdict | efax/efax.c:2110-2177 | A page sent is accepted exactly when the modem says so, by an odd status or none, or with Class 2.0 by its answer to the data, or when nothing is ever sent again; once the modem has hung up, when the page before was; otherwise it is to be sent again, and the loop ends exactly at the third try or with a hang-up or a failed post-page message |
| PageSending.SentAgain | efax/efax.c:2156-2162 | After a page that is not accepted the next pass sends the same page or ends the loop |
| PageSending.AcceptedBy | efax/efax.c:2121-2137 | As long as nobody hangs up, each page accepted has a pass that sent it and after which the modem said that it was received well |
| PageSending.VouchedAt | efax/efax.c:2121-2137 | And which pass that is |
| PageSending.AcceptedUnheard | efax/efax.c:2118-2137 | A fax whose last page counts as accepted although the modem hung up instead of saying so |
| PageSending.SkippedAt | efax/efax.c:2087-2102 | Where pages are left out, there is a pass in which a hang-up without an error code is reported while the resolution is changed for the next page, and a later pass that sends a page |
| PageSending.SkippedBy | efax/efax.c:2087-2102 | Any two such passes leave a page out |
| PageSending.RunEnds | efax/efax.c:2085-2177 | The loop ends after at most eight passes a page and eight more, whatever the modem answers |
| PageSending.SkipsAfterHangup | efax/efax.c:2085-2177 | A modem with which a page is left out of a fax that ends without error |
| PageSending.SendLoop.SendAll | efax/efax.c:2085-2177 | The loop over its variables is the run of the specification, and ends |
| PageSending.StepProgress | efax/efax.c:2085-2177 | Each pass that goes on leaves less to do, in the order of pages left and tries left |
| Training.TrainingEnds | efax/efax.c:1597-1659 | Training ends within ten passes, whatever the answers, if and only if the local speed is not 4 |
| Training.TenPasses | efax/efax.c:1597-1659 | Ten passes can be needed |
| Training.FailureDescends | efax/efax.c:169-178 | With any local speed but 4 a failed training lowers the speed that is tried next |
| Training.SpeedFourRepeats | efax/efax.c:612-635 | With local speed 4 and a receiver offering no less, failures go on for ever |
| Training.TrainedSpeed | efax/efax.c:1653-1654 | A confirmed speed is the highest, in the order of negotiation, that neither side forbids |
| Training.OutcomeAt | efax/efax.c:1622-1659 | When each way of ending happens: too many tries at the third one without a verdict on the channel, no usable channel when the lowest speed fails |
| Training.Trainer.Train | efax/efax.c:1597-1659 | The loop is the run of the specification, and ends within ten passes |
| Controller.Reachable | src/efax_controller.cpp:80-849 | After any events: inactive exactly when there is no child, no worker, and no open or watched pipe; sending owns a worker or a child and not both; receiving owns a watched child |
| Controller.QuitOnlyWhenIdle | src/efax_controller.cpp:80-86 | The program is told that it may end only when nothing is owned any more |
| Controller.QuitMissed | src/efax_controller.cpp:201-216 | Once closing down was asked for, the event that makes the controller inactive says so if and only if it is the exit of the child |
| Controller.QuitIsMissed | src/efax_controller.cpp:201-216 | A sequence of events after which the controller is inactive, closing down was asked for, and this was never said |
| Controller.StandbyResumes | src/efax_controller.cpp:201-216 | Once closing down was asked for while a fax is made up on standby, the controller goes back to receiving if and only if the news is that no fax was made; asking to close down again then does nothing |
| Controller.StandbyDoesResume | src/efax_controller.cpp:201-216 | A sequence of events that gets there |
| Controller.StandbyRestarts | src/efax_controller.cpp:806-849 | The exit of a child that received on standby is followed by another one if and only if its code is 0 or 3, closing down was not asked for, and a directory can be made |
| Controller.StartsExactly | src/efax_controller.cpp:80-849 | In every state that can be reached, exactly which events start a worker or a child |
| Controller.Enters | src/efax_controller.cpp:80-849 | In every state that can be reached, by which events and from where each state is entered |
| Controller.QuitsExactly | src/efax_controller.cpp:80-86 | When closing down is noted, and when the program is told that it may end |
| Controller.StartsAfterClose | src/efax_controller.cpp:80-306 | Once closing down was asked for, an event starts a child or a worker if and only if it is the news of a finished worker that made a fax or that interrupted standby, or the user starts something when the controller is already inactive |
| Controller.StillSent | src/efax_controller.cpp:240-306 | A fax that is being made up when closing down is asked for is sent all the same |
| Controller.EfaxController.SendFaxImpl | src/efax_controller.cpp:132-199 | Starting a worker, or putting it off until the receiving child has ended, for each state |
| Controller.EfaxController.TimerEvent | src/efax_controller.cpp:738-849 | What follows the exit of the child, for each state; every pipe opened was closed, and no post is waited for that has not been made |
| Controller.EfaxController.NoFaxMadeSlot | src/efax_controller.cpp:201-216 | The worker is joined, its pipe closed, and receiving taken up again where it was interrupted |
| Controller.EfaxController.SendFaxSlot | src/efax_controller.cpp:240-306 | The worker is joined and the child started on its pipe |
| Controller.EfaxController.StartReceiving | src/efax_controller.cpp:635-718 | A receiving child is started when the controller is inactive and only then |
| Controller.EfaxController.EfaxClosedown | src/efax_controller.cpp:80-86 | Closing down is noted, and signalled at once when nothing is owned |
| Folders.PrintUnique | src/fax_list_manager.cpp:1248-1274 | A path name stands for one path only |
| Folders.EveryLine | src/fax_list_manager.cpp:724-760 | Every line is a text without dividers and a path name after it |
| Folders.LineUnique | src/fax_list_manager.cpp:724-760 | And that in one way only |
| Folders.ReadMerges | src/fax_list_manager.cpp:724-875 | Reading the list written for some folders merges them into those there are, for any folders |
| Folders.ReadBack | src/fax_list_manager.cpp:1628-1700 | Reading back the list written in preorder rebuilds the same forest |
| Folders.Restart | src/fax_list_manager.cpp:500-575 | Read into a program that has just started it gives the folders there were, in their order, the two permanent ones first |
| Folders.FolderStore.GetFolders | src/fax_list_manager.cpp:724-875 | Parsing from the end of the line and adding what is missing from the front inserts the path: known folders stay, and each missing one is made once; its names go into the validator. A line with a text in front of the first divider makes no folder, but its names go in too |
| Folders.ValidatorExact | src/fax_list_manager.cpp:724-760 | After a list of lines is read the validator holds exactly the names of the folders if and only if every name on a line that is no path name is that of some folder |
| Folders.FolderStore.ReadPathList | src/fax_list_manager.cpp:595-599 | Reading any list of lines: the folders are those of the path names among them, the validator gets the names of all |
| Folders.FolderStore.CreateRow | src/fax_list_manager.cpp:790-862 | The map from path names to rows stays exact when a row is added |
| Folders.HasAppended | src/fax_list_manager.cpp:790-862 | One more folder is known and no other |
| Folders.WritePathsForLevel | src/fax_list_manager.cpp:1628-1700 | The lines are the path names in preorder |
| Folders.WriteAndRestart | src/fax_list_manager.cpp:1607-1700 | Writing, starting again and reading, put together |
| FaxPlaces.RestartWithFaxes | src/fax_list_manager.cpp:877-935 | Across a restart every folder is there and every fax is back in its own folder, in order; only faxes of a root folder without a name go to the main one |
| FaxPlaces.FaxesJoin | src/fax_list_manager.cpp:673-691 | The faxes of a folder are in the order in which they are read |
| FaxPlaces.FaxStore.PlaceFax | src/fax_list_manager.cpp:673-691 | Where a fax goes for every line its Path file may hold, and what is put into the validator |
| FaxPlaces.StillThere | src/fax_list_manager.cpp:560-575 | Every folder there was is there after a restart |
| FolderHistory.EveryHistory | src/fax_list_manager.cpp:1045-1246 | After any sequence of making, dragging, deleting, and starting the program again: rows are a forest, each folder has a fax list of its own and a name of its own, the validator holds exactly those names, and the permanent folders are at the root |
| FolderHistory.FaxesStay | src/fax_list_manager.cpp:1120-1237 | Over any sequence of actions a folder keeps its fax list until it is deleted itself |
| FolderHistory.StepHolds | src/fax_list_manager.cpp:1490-1524 | Only deleting the folder takes a fax list away |
| FolderHistory.StepNames | src/fax_list_manager.cpp:1454-1524 | A folder goes only when it is deleted, empty, without faxes and not permanent, and one is made only with a name that is not empty, has no divider and is not in use |
| FolderHistory.MoveNames | src/fax_list_manager.cpp:1045-1171 | A drag changes no name |
| FolderHistory.FolderManager.MakeFolder | src/fax_list_manager.cpp:1454-1488 | A folder is made at the root exactly when a name is given and is valid |
| FolderHistory.FolderManager.DropFolder | src/fax_list_manager.cpp:1045-1171 | Dropping a folder on another does what the drag action says, and nothing else |
| FolderHistory.FolderManager.DeleteFolder | src/fax_list_manager.cpp:1490-1524 | A folder is deleted only when it is empty and not permanent |
| FolderHistory.FolderNameValidator.Validate | src/fax_list_manager.cpp:67-88 | Putting a name in and taking it out again tells whether it was there, and leaves the set as it was; a valid name also holds no divider |
| FolderMoves.AcceptedIsSafe | src/fax_list_manager.cpp:1173-1185 | A drop that passes the tests on path names is not into the folder itself or one in it, and a permanent folder is dropped at the root |
| FolderMoves.Refused | src/fax_list_manager.cpp:1173-1185 | Which drops the string test refuses, exactly, in terms of paths |
| FolderMoves.AcceptedExactly | src/fax_list_manager.cpp:1054-1094 | Which drops are accepted, exactly, in terms of paths |
| FolderMoves.CopyShows | src/fax_list_manager.cpp:1187-1246 | Folders handed over row by row show the names, fax lists and folders that the old ones showed |
| FolderMoves.MoveKeeps | src/fax_list_manager.cpp:1045-1171 | A move keeps the forest sound: no row twice, one fax list for each row, permanent folders at the root |
| FolderMoves.MoveConserves | src/fax_list_manager.cpp:1045-1171 | No folder and no fax list is lost or doubled by a move, and the moved folder shows what it showed before |
| FolderMoves.FolderTree.MoveFolder | src/fax_list_manager.cpp:1045-1171 | The row operations give the specified tree, and leave it alone when the drop is refused |
| FolderPaths.OthersStay | src/fax_list_manager.cpp:1045-1171 | A move leaves every folder where it is, in the same folders, that is neither the one moved nor in it |
| FolderPaths.MovedAt | src/fax_list_manager.cpp:1074-1088 | The moved folder is where it was dropped, in the tree and not only by name, with what was in it |
| FolderOrder.MoveOrder | src/fax_list_manager.cpp:1094-1109 | After an accepted move the folder stands immediately above or below the one it was dropped on, or first in it; every place outside the moved folder keeps its other folders in their order and has lost the old row only |
| FolderOrder.MakeOrder | src/fax_list_manager.cpp:1454-1488 | A new folder is the last one at the root |
| FolderOrder.OrderStays | src/fax_list_manager.cpp:1045-1246 | Over any sequence of actions, restarts included, a folder stays before another in the same place as long as neither is moved or deleted itself; only the permanent ones go to the front by themselves |
| FolderHistory.StepPlace | src/fax_list_manager.cpp:1045-1246 | An action takes away exactly the row it deletes or the rows it moves, and every other folder stays where it is |
| FolderHistory.PathsStay | src/fax_list_manager.cpp:1045-1246 | Over any sequence of actions a row stays where it is until it is moved, made anew or deleted |
| FolderParents.MoveReparents | src/fax_list_manager.cpp:1045-1171 | A drag gives the dragged folder the parent that it is dropped in and changes no other folder's parent |
| FolderParents.EdgeStays | src/fax_list_manager.cpp:1045-1246 | Over any sequence of actions, restarts included, a folder stays in the folder it is in, however that is moved about, until it is moved or deleted itself |
| FolderParents.DescendantsStay | src/fax_list_manager.cpp:1045-1246 | Every folder keeps what is in it: a folder stays in every folder it is in, by way of the same folders, unless it or one between them is moved or deleted itself |
| FolderHistory.HarmlessRefused | src/fax_list_manager.cpp:1173-1185 | Two folders made at the root, A and AB: putting A into AB is harmless and refused |
| FolderRestart.EveryHistoryReadsBack | src/fax_list_manager.cpp:1607-1700 | After any sequence of actions the list of path names reads back as the same forest, and starting the program again gives the folders there were |
| FolderRestart.PathHas | src/fax_list_manager.cpp:724-760 | The path of every row leads to its folder in the folders read back |
| FolderRestart.StartAgainReads | src/fax_list_manager.cpp:500-599 | Starting again is reading the list written: the same folders, and the validator holds their names |
| FolderRestart.OwnFolder | src/fax_list_manager.cpp:677-691 | As long as no folder has the empty name, every fax comes back to the folder that it is in |
| FolderRestart.NeverEmpty | src/fax_list.cpp:1506-1518 | No action gives a folder the empty name |
| FolderRestart.Reopen | src/fax_list_manager.cpp:500-691 | Ending the program and starting it again, after any history: a valid manager with the same folders and the same names in use, and every fax where it was |
| FolderMoves.NewName | src/fax_list_manager.cpp:1074-1088 | The new path name is cut and put together on the string as on the path |

## Left out

- RunLines.RunOr: run lengths are unbounded here and on the page; the program's are 16 bits wide, which makes no difference as long as no width is over 32767.
- PageGeometry.XPad: asks for room for one more run when it pads a full buffer with white, which the program writes without looking.
- PageGeometry.DroppedTooMuch: states what the code does for a shift past the line's end, where it does not move pixels; PageLayout.PlacedLine has the exact condition for the whole line.
- PageGeometry.XShift: asks for a run when it shifts to the left; without one the program writes in front of the buffer.
- BitMaps.BitToRun: the string of digits is built from the entries of the table in ByteRuns.Row, each ended by a zero; its 22 source lines are not copied.
- FaxLink.Transmit: the width is at most 2432 pixels, the widest that the protocol knows; no line may have more codes than the run buffer holds; and a header line is not empty.
- FaxPage.Compose: asks for lines that fit the run buffer, as FaxLink.Transmit does; the header's run lengths are any given ones; drawing its text from the font is not modelled.
- Training.Trainer.Train: asks for a local speed other than 4, without which it need not end; Training.TrainingEnds has the condition both ways.
- PageLayout.PlacePage: overlay lines have runs, and fit the run buffer together with the line they are put on; the floating-point arithmetic that gives sizes and scales is left out, so widths, heights and scales are parameters.
- Folders.FolderStore.GetFolders: lines are valid UTF-8; for others the program drops the line.
- Folders.FolderStore.ReadPathList: lines are given as such; names that contain a line break are not modelled.
- FolderHistory.EveryHistory: which fax is in which fax list is not part of the history; a list is known by a number, and whether it is empty is an input of the delete action. A folder's list keeps its number when the program starts again, since it then holds the same faxes (FaxPlaces.RestartWithFaxes, FolderRestart.OwnFolder).
- Reading a coded page from a file (efax/efaxlib.c:502-562) decodes as FaxReader does, from another source of bytes; only the latter is modelled.
- The pass phrase is a parameter; the program reads it from a file for every line.
- The embedded-response detector, timing and flow control, noise on the line, and messages.
- The published HC-128 cipher: the program's key setup is not the published one, and the model is of the program's.
- Class 1 beyond the training loop, including page retries.
- What a page's files do to the page list after the last page, and marking files as sent.
- The PostScript around the lines (bounding box, scaling), and what is kept from one output file to the next.
- The controller's failed fork in the parent, signals to the child, and log and status output.
- Icons, sorting, selection and dialogs of the folder list, and the reading of fax directories.
- PCX, TIFF, PGM and PCL output, fonts, base64, identification strings and capability frames.
