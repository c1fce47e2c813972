# usbrelay: relayctl command engine and driver attach/detach ledger

This project models two parts of the usbrelay system:

- the command engine of the `relayctl` tool;
- the resource ledger that the kernel driver keeps across probe and disconnect.

It also models the header constants that both parts share.

## The relayctl command engine

`relayctl` turns a command line into one operation on a four-channel relay mask. That mask is the low nibble of the byte the driver's character device reads and writes. The model covers four areas:

- **Argument checks** (`RelayArgs`):
  - `parse_args`: the `-v`/`-i`/`-d` option loop, the case-insensitive command word, the command's own arguments, and the refusal of any extra word;
  - `parse_channel_arg` and `parse_mask_arg`, modelled on the `strtol` and `strcasecmp` they call (`CLib`).
- **Mask arithmetic** (`UsbRelay`, `RelayEngine`):
  - channel bits, set, clear and toggle;
  - the sanitize step applied to every byte read and written;
  - the handlers for `set`, `get`, `getall`, `toggle`, `write-mask`, `read-mask`, `reset` and `ping`.
- **Response lines**: `OK CH=<n> STATE=ON|OFF`, `OK MASK=0x<HH>` and the `ERR` diagnostics.
- **Dispatch and `main`**: which commands need the device, and the exit status (0, 1 or 2).

The device is an abstract one-byte cell (`Device`). A `Faults` value says whether the next `read` or `write` fails, and whether a failed `write` still reaches the device. Whether `open` succeeds is a parameter of `Main`.

## The driver ledger

`usbrelay_probe` acquires five resources, always in this order:

1. memory;
2. the USB device reference;
3. the chrdev region;
4. the cdev;
5. the device node.

Between these it:

- binds the interface data;
- creates the class (once per module);
- sets bit-bang mode;
- pushes the initial relay byte.

On failure, probe jumps to one of its goto labels and unwinds. `usbrelay_disconnect` tears everything down.

How the model represents this:

- Each kernel call becomes an `Event`.
- `Env` says which step fails and what it returns.
- `Replay` runs a log of events against a `Ledger`: a stack of held resources plus the interface-data and class flags. A replay is undefined as soon as an event:
  - acquires a resource out of order;
  - releases a resource that is not on top of the stack;
  - binds interface data without the memory;
  - talks to the device without the USB reference.

The main theorems cover four points:

- Every probe outcome and every disconnect is a legal walk from the driver's ledger to the ledger of its new state (`ProbeKeepsLedger`, `DisconnectKeepsLedger`, `RunKeepsLedger`).
- A failure at any step releases exactly what was acquired, in reverse order (`ProbeFailureUnwinds`).
- Disconnect releases everything in the reverse of probe's order.
- Disconnect without an instance does nothing.

## Model

| member | source | states |
|---|---|---|
| UsbRelay.ChToBit | userspace/include/usbrelay.h:12-13 | each valid channel owns one single bit, and that bit lies inside MASK_ALL |
| UsbRelay.ChToBitIsShift | userspace/include/usbrelay.h:12 | the channel-to-bit table equals `1 << (ch - 1)`, the header's macro |
| UsbRelay.ChannelBitValues | userspace/include/usbrelay.h:12 | channel 1 is the least significant bit: channels 1..4 map to 0x01, 0x02, 0x04, 0x08 |
| UsbRelay.ChannelBitsDisjoint | userspace/include/usbrelay.h:12 | distinct channels map to distinct, non-overlapping bits |
| UsbRelay.MaskAllIsLowNibble | userspace/include/usbrelay.h:13 | MASK_ALL, `(1 << 4) - 1` truncated to a byte, is 0x0F |
| UsbRelay.ValidChannelsAreOneToFour | userspace/include/usbrelay.h:8-10 | the valid channels are exactly 1, 2, 3 and 4 |
| UsbRelay.MaskDeterminedByChannels | userspace/include/usbrelay.h:12-13 | two masks inside MASK_ALL that agree on every channel's state are the same byte |
| UsbRelay.SwitchOn | userspace/tools/relayctl.c:402-404 | OR-ing the bit turns the channel on, keeps every other bit, and keeps a sanitized mask inside MASK_ALL |
| UsbRelay.SwitchOff | userspace/tools/relayctl.c:405-407 | AND-ing the complement turns the channel off, keeps every other bit, and keeps a sanitized mask inside MASK_ALL |
| UsbRelay.WithChannel | userspace/tools/relayctl.c:402-408 | after `set`, the channel is on exactly when ON was asked for; no other bit moves |
| UsbRelay.FlipChannel | userspace/tools/relayctl.c:469 | XOR-ing the bit inverts the channel's state and keeps every other bit |
| UsbRelay.OnlyBitChanges | userspace/include/usbrelay.h:12 | when two masks differ at most in one channel's bit, every other channel reads the same in both |
| CLib.StrCaseCmpZeroIff | userspace/tools/relayctl.c:199-281 | `strcasecmp` returns 0 exactly when the two words are equal after ASCII lower-casing |
| CLib.StrCaseCmpIgnoresCase | userspace/tools/relayctl.c:199-281 | replacing a word by a case variant does not change any comparison result |
| CLib.Strtol | userspace/tools/relayctl.c:294 | `strtol`'s end pointer stays in the string, the value fits a 64-bit long, and no conversion yields 0 |
| CLib.StrtolConsumesAll | userspace/tools/relayctl.c:294-295 | the whole text is consumed exactly when everything after the sign and base prefix is a digit of that base; the value is then the numeral's signed value, saturated to the long range |
| CLib.FormatDecimalReadsBack | userspace/tools/relayctl.c:412 | `%d` of a natural number prints decimal digits that read back to the number |
| CLib.FormatHex2ReadsBack | userspace/tools/relayctl.c:449 | `%02X` of a byte prints two hexadecimal digits that read back to the byte |
| RelayArgs.ParseChannelArg | userspace/tools/relayctl.c:292-302 | an accepted channel is in 1..4, every refusal is BAD_CHANNEL, and the empty text is refused |
| RelayArgs.ParseChannelArgIsGrammar | userspace/tools/relayctl.c:292-302 | the channel check accepts exactly the texts of optional blanks, an optional '+', then decimal digits (nothing after) worth 1..4, with that value |
| RelayArgs.ChannelTextRoundTrip | userspace/tools/relayctl.c:292-302 | every valid channel, printed in decimal, passes the channel check with its own value |
| RelayArgs.CheckMaskValue | userspace/tools/relayctl.c:309-317 | the two range checks on a converted mask together admit exactly 0..15 |
| RelayArgs.ParseMaskArg | userspace/tools/relayctl.c:305-319 | an accepted mask has no bit outside MASK_ALL (so it is at most 0x0F), every refusal is BAD_MASK, and the empty text is refused |
| RelayArgs.ParseMaskArgIsGrammar | userspace/tools/relayctl.c:305-319 | the mask check accepts exactly the texts of optional blanks, an optional sign, then a whole C numeral (hex, octal or decimal) whose signed value is 0..15 |
| RelayArgs.MaskTextRoundTrip | userspace/tools/relayctl.c:305-319 | every mask inside MASK_ALL, written as `0x%02X`, passes the mask check and reads back unchanged |
| RelayArgs.WideMaskRejected | userspace/tools/relayctl.c:313-316 | the text "0x10", a mask that fits a byte but sets the bit above channel 4, is BAD_MASK |
| RelayArgs.WideMasksRejected | userspace/tools/relayctl.c:309-317 | every byte with a bit above channel 4, written as the tool prints masks (`0x%02X`), is BAD_MASK |
| RelayArgs.CopyPath | userspace/tools/relayctl.c:181-182 | the copied device path is a prefix of the argument, of exactly its length when that is below PATH_MAX (4096) and of PATH_MAX - 1 characters otherwise |
| RelayArgs.ParseOptions | userspace/tools/relayctl.c:168-188 | the option loop stops at the first word not starting with '-' and changes only the path and the two flags. A flag is never cleared, and a flag or path it sets comes from a `-v`, `-i` or `-d <path>` it read (the path copied by `CopyPath`). A trailing `-d` and an unknown option are BAD_COMMAND, and every error it reports is BAD_COMMAND |
| RelayArgs.OptionsRoundTrip | userspace/tools/relayctl.c:168-188 | the options rendered from any record are read back to that record's path and flags, stopping exactly at the command word |
| RelayArgs.SetCommand | userspace/tools/relayctl.c:199-223 | fewer than two words after `set` is BAD_COMMAND; a bad channel word is BAD_CHANNEL; with a good channel, the state word is refused (BAD_STATE) exactly when it is neither "on" nor "off" in any case. An accepted `set` consumes both words, carries the channel the word names, is ON exactly when the word is "on", and keeps every other field |
| RelayArgs.ChannelCommand | userspace/tools/relayctl.c:224-250 | a missing channel word after `get` or `toggle` is BAD_COMMAND; a present one is accepted exactly when the channel check accepts it, otherwise BAD_CHANNEL. An accepted command consumes that word, carries its channel and keeps every other field |
| RelayArgs.MaskCommand | userspace/tools/relayctl.c:251-262 | a missing mask word after `write-mask` is BAD_COMMAND; a present one is accepted exactly when the mask check accepts it, otherwise BAD_MASK. An accepted command consumes that word, carries its mask and keeps every other field |
| RelayArgs.CommandOf | userspace/tools/relayctl.c:199-281 | the command word is tried against the ten names in source order, and a recognized word compares equal (ignoring case) to the name of the command it yields |
| RelayArgs.CommandNameRecognized | userspace/tools/relayctl.c:199-281 | each command's own name is recognized as that command, so no earlier branch captures a later command's name |
| RelayArgs.CommandOfNone | userspace/tools/relayctl.c:278-281 | a word is unknown exactly when it differs, ignoring case, from all ten command names |
| RelayArgs.ParseCommand | userspace/tools/relayctl.c:197-281 | an unknown word is BAD_COMMAND; a known one without all its argument words is BAD_COMMAND; with them, the first bad argument (channel, mask, then state) gives its own error and otherwise the command is accepted. An accepted command is the one the word names, consumes exactly the word and its arguments, carries the values those arguments denote, and keeps every other field |
| RelayArgs.CommandRoundTrip | userspace/tools/relayctl.c:197-281 | the words rendered from any validated command parse back to it and consume exactly those words |
| RelayArgs.ParseArgs | userspace/tools/relayctl.c:151-289 | fewer than two words give the usage error and an option error is BAD_COMMAND. After the options: no word left is the usage error; an unknown command, a missing argument or an extra word is BAD_COMMAND; a bad argument gives its own error; otherwise the line is accepted as the named command with the options read and the argument values the words denote |
| RelayArgs.ParseArgsRoundTrip | userspace/tools/relayctl.c:151-289 | every validated record, rendered as a command line, parses back to itself |
| RelayArgs.ParseCommandIgnoresAppended | userspace/tools/relayctl.c:197-281 | a command that parsed reads the same words, and no further ones, when a word is appended |
| RelayArgs.ExtraArgumentRejected | userspace/tools/relayctl.c:283-286 | appending any word to an accepted command line makes it BAD_COMMAND |
| RelayArgs.CommandWordIgnoresCase | userspace/tools/relayctl.c:199-281 | replacing the command word by any case variant leaves the parse unchanged |
| RelayArgs.ParseOptionsIgnoresStopWord | userspace/tools/relayctl.c:169-188 | the option loop reads the word it stops at only to see that it does not start with '-': any other such word there leaves the loop's result unchanged |
| RelayArgs.ParseArgsIgnoresCommandCase | userspace/tools/relayctl.c:169-281 | two command lines differing only in the case of the command word, wherever the options leave it, parse alike |
| RelayEngine.Sanitize | userspace/tools/relayctl.c:322-324 | the sanitized mask has no bit outside MASK_ALL, keeps every channel's state, and leaves a mask already inside MASK_ALL unchanged |
| RelayEngine.HandleSet | userspace/tools/relayctl.c:384-414 | a bad channel or a failed read is reported with its diagnostic and changes nothing; a failed write is reported with WRITE_FAILURE, and the device is untouched unless the failed write is one that still lands. Otherwise the device holds the sanitized old mask with just that channel switched as asked, and the reply names the channel and its new state |
| RelayEngine.HandleGet | userspace/tools/relayctl.c:418-444 | `get` never writes; it reports ON exactly when the channel's bit is set in the device byte |
| RelayEngine.HandleReadMask | userspace/tools/relayctl.c:447-451 | `getall` and `read-mask` (lines 496-502) never write and print the sanitized device byte as `OK MASK=0x%02X` |
| RelayEngine.HandleToggle | userspace/tools/relayctl.c:453-479 | on success the channel's state is inverted, every other channel keeps its sanitized state, and the reply is the new state; failures are reported as in `set` |
| RelayEngine.HandleWriteMask | userspace/tools/relayctl.c:481-494 | a mask with a bit above channel 4 is BAD_MASK with the device untouched; otherwise the device holds exactly the mask and the reply echoes it. A failed write is reported, and the device holds the mask only if the failed write lands |
| RelayEngine.HandleReset | userspace/tools/relayctl.c:504-511 | whatever the device held, a successful reset leaves 0x00 and replies `OK MASK=0x00`; a failed write is reported, and the device is 0x00 only if the failed write lands |
| RelayEngine.SwitchAfterRead | userspace/tools/relayctl.c:401-413 | after a successful read, a write that reaches the device leaves the channel in the state asked for, every other bit as read, and nothing outside MASK_ALL; a failed write that does not land leaves the device as it was; the reply names the channel and its state unless the write fails |
| RelayEngine.FlipAfterRead | userspace/tools/relayctl.c:464-478 | after a successful read, `toggle` writes the read mask with that channel inverted, and replies with the inverted state unless the write fails |
| RelayEngine.FailedWriteOutcome | userspace/tools/relayctl.c:367-381 | for every command, a failed write that lands leaves the device as a successful one would, and one that does not land leaves it as it was |
| RelayEngine.HandlePing | userspace/tools/relayctl.c:513-521 | `ping` never writes; it answers `OK` when the device can be read, and otherwise the read failure followed by DEVICE_UNAVAILABLE |
| RelayEngine.Dispatch | userspace/tools/relayctl.c:593-629 | an unknown command is an INTERNAL_ERROR |
| RelayEngine.DispatchFrame | userspace/tools/relayctl.c:593-629 | every dispatched command either leaves the device byte as it was or leaves it holding only channel bits (nothing outside MASK_ALL); the read-only commands never change it |
| RelayEngine.Main | userspace/tools/relayctl.c:637-713 | the exit status is 0, 1 or 2; a bad command line exits 1 without touching the device; 2 means exactly that the command needed the device and it could not be opened; 0 comes with no diagnostic |
| RelayEngine.MainRunsCommand | userspace/tools/relayctl.c:672-712 | a one-shot command line rendered from a validated record runs its handler on the opened device and exits with that handler's status |
| RelayEngine.SetLeavesOtherChannels | userspace/tools/relayctl.c:396-408 | after `set`, every other channel is in the state the device had |
| RelayEngine.ToggleLeavesOtherChannels | userspace/tools/relayctl.c:464-470 | after `toggle`, every other channel is in the state the device had |
| RelayEngine.ToggleTwiceRestores | userspace/tools/relayctl.c:469-477 | two toggles of one channel give back the (sanitized) original mask |
| RelayEngine.SetThenGet | userspace/tools/relayctl.c:384-444 | `get` after `set` on the same channel reports the state that was set |
| RelayEngine.SetIdempotent | userspace/tools/relayctl.c:402-408 | repeating the same `set` leaves the device as the first one did |
| RelayEngine.WriteThenRead | userspace/tools/relayctl.c:481-502 | `read-mask` after `write-mask m` prints m |
| RelayEngine.ReadMaskTextRestores | userspace/tools/relayctl.c:481-502 | the mask text `read-mask` prints is accepted by `write-mask`, which writes the same byte back |
| RelayEngine.ContextIrrelevant | userspace/tools/relayctl.c:353-382 | the cached mask never influences a command: each handler reads the device or overwrites the cache first |
| RelayEngine.Session | userspace/tools/relayctl.c:384-511 | a worked session: set 1 on, set 3 on, toggle 1, getall prints 0x04, write-mask 0x0A, and write-mask 0x10 is refused with the device still at 0x0A |
| RelayDriver.LastBulkOut | kmod/relay_driver.c:70-78 | no bulk OUT endpoint gives 0, and a non-zero result is the address of some bulk OUT endpoint |
| RelayDriver.LastBulkOutWins | kmod/relay_driver.c:70-78 | when several endpoints are bulk OUT, the last one in the table wins |
| RelayDriver.LastBulkIn | kmod/relay_driver.c:70-78 | no bulk IN endpoint gives 0, and a non-zero result is the address of some bulk IN endpoint |
| RelayDriver.DiscoverEndpoints | kmod/relay_driver.c:70-78 | the endpoint loop finds the bulk OUT and bulk IN addresses that the table's last such entries carry |
| RelayDriver.Probe | kmod/relay_driver.c:42-179 | a bound instance means return 0, the class is up, `relay_state` is 0x00 and was the byte pushed last, and the bulk OUT address is non-zero. The class, once up, stays up. A failed allocation only clears the interface data and returns -ENOMEM |
| RelayDriver.UnwindReleases | kmod/relay_driver.c:162-178 | each goto label releases, in order: node, cdev, region, USB ref, memory from `error_destroy_device`; one fewer per later label; the USB reference and memory at `error` with an instance, nothing without one; no label acquires anything |
| RelayDriver.PrefixHolds | kmod/relay_driver.c:53-140 | the work done before any failing step acquires a prefix of the fixed order memory, USB ref, region, cdev, node and releases nothing |
| RelayDriver.ProbeFailureLog | kmod/relay_driver.c:53-178 | a failed probe logs the work of the steps before the failing one, then the unwind from the label that step jumps to, and returns that step's error code |
| RelayDriver.ProbeFailureUnwinds | kmod/relay_driver.c:162-178 | after any failure, probe releases exactly what it had acquired, in reverse order, and binds nothing |
| RelayDriver.ProbeKeepsLedger | kmod/relay_driver.c:42-179 | every probe outcome is a legal walk of the ledger from the unbound state to the state probe leaves |
| RelayDriver.ProbeBindsIffReady | kmod/relay_driver.c:42-179 | an instance is bound exactly when no step fails |
| RelayDriver.ProbeSucceedsIffReady | kmod/relay_driver.c:146-159 | with the short write reported as an error, probe returns 0 exactly when every step, the one-byte initial write included, succeeds |
| RelayDriver.MissingBulkOut | kmod/relay_driver.c:80-84 | no bulk OUT endpoint: -ENODEV, the USB reference and memory are released and the interface data cleared, and no chrdev region is ever registered |
| RelayDriver.CdevAddFailure | kmod/relay_driver.c:101-105 | a `cdev_add` failure returns its code and releases region, USB reference and memory in that order, clearing the interface data last |
| RelayDriver.LateFailure | kmod/relay_driver.c:137-177 | a bit-bang or initial-write failure runs the full unwind: node, cdev, region, USB reference, memory; the class stays |
| RelayDriver.ShortWriteReportsSuccess | kmod/relay_driver.c:152-159 | as written, an initial write that returns 0 but does not move one byte unwinds everything yet makes probe return 0 |
| RelayDriver.ShortWriteExample | kmod/relay_driver.c:146-156 | a concrete interface with one bulk OUT endpoint and a zero-length initial transfer: probe returns 0 with no instance bound |
| RelayDriver.Disconnect | kmod/relay_driver.c:182-211 | disconnect with no instance is a no-op; otherwise it leaves the driver unbound with the class as it was, removes the node only when the class exists, then releases cdev, region, USB reference and memory in that order, clearing the interface data right after the region |
| RelayDriver.DisconnectOrder | kmod/relay_driver.c:189-208 | disconnect of a bound instance releases node, cdev, region, USB reference and memory in that order, and clears the interface data exactly once, between the region and the USB reference |
| RelayDriver.DisconnectReleasesAll | kmod/relay_driver.c:191-208 | disconnect releases node, cdev, region, USB reference and memory, the reverse of probe's order, and acquires nothing |
| RelayDriver.DisconnectKeepsLedger | kmod/relay_driver.c:184-208 | disconnect is a legal walk of the ledger from the driver's state to the unbound one: every release gives back the most recently acquired resource |
| RelayDriver.RunKeepsLedger | kmod/relay_driver.c:42-211 | any sequence of attaches and detaches keeps the ledger consistent with the driver state it reaches |

## Left out

- File I/O and output: `open`, `read`, `write`, `close`, `printf` and `stderr` are not modelled as calls. The device is a byte cell with injected faults, the open result is a parameter, and each printed line is a `Response` value.
- The interactive loop (`run_interactive`): the `fgets`/`strtok` tokenising is not modelled. `Main` ends in an `Interactive` outcome, and the loop's `switch` is `Dispatch`.
- The help and usage texts are static output, so they are the markers `HelpText` and `UsageText`.
- `handle_version` is modelled only as the constant reply line.
- Driver kernel calls such as `kzalloc`, `usb_get_dev`, `alloc_chrdev_region`, `cdev_add`, `class_create`, `device_create`, `usb_control_msg` and `usb_bulk_msg` are opaque events. Their failures come from `Env`.
- The driver's mutex, file operations, and module init/exit (kmod/relay_driver.c:230-246) are not part of this model.
- kmod/relay_driver.mod.c and setup.c are not part of this model.
- The driver's single global `usbrelay_devt` is not modelled. With it, a second attached interface would reuse and clobber the first one's device number. The model attaches one interface at a time.
- RelayEngine.Dispatch: its own contract states only the unknown-command case. What each command does is stated by the handler contracts and by `DispatchFrame` and `ContextIrrelevant`.
- RelayDriver.Probe: kmod/relay_driver.c:118 tests `device_create` against NULL, but `device_create` reports failure as an `ERR_PTR` value, which is non-NULL. As written that branch never fires, and a failed node creation goes on to bit-bang mode with no node. The model's node-creation failure (unwinding from `error_del_cdev` with -ENODEV) is the branch as evidently intended, an `IS_ERR` test; the as-written path is not modelled.
- `PATH_MAX`: relayctl.c:13-15 falls back to 128 when `<limits.h>` does not define it. The model assumes a Linux build, where `<limits.h>` defines it as 4096 (`RelayArgs.PathMax`).
- CLib.Strtol: it models glibc's `strtol` for the two bases used here (10, and 0 with automatic prefixes). Locale-dependent blanks and the C2X "0b" prefix are not modelled.

## Notes on the code

- A failed `read` or `write` prints READ_FAILURE or WRITE_FAILURE (relayctl.c:363, 378). `ping` then adds DEVICE_UNAVAILABLE. The model follows the code.
- A failed `write` may or may not have reached the device; the driver's write path is not part of this model. `Faults.failedWriteLands` chooses, and the handler contracts state both outcomes.
- After a failed write, the handlers still leave the changed mask in the cache. The model keeps that too, although nothing reads the cache before overwriting it.
- `parse_mask_arg` uses `strtol` with base 0, so these texts are accepted:
  - "-0", which is mask 0;
  - " 5" and "+5";
  - octal, such as "012".
- `parse_channel_arg` rejects a negative sign only through the range check.
- In one-shot mode `main` never reaches its `INTERNAL_ERROR` exit 3, because `parse_args` always sets a command. In the interactive loop the same case is exit status 1, and that is what `Dispatch` reports.
- Probe never destroys the class it created, on any path. Disconnect removes the node only when the class exists. The model carries the class as a flag that, once up, stays up.
- The channel-to-bit mapping is written as a table, and `ChToBitIsShift` proves it equal to the header's shift.

## Findings

| source | as written | input that shows it | evidently intended | confidence | as-written member | corrected member |
|---|---|---|---|---|---|---|
| kmod/relay_driver.c:146-156 | After a short initial write (`usb_bulk_msg` returns 0 but `actual_len != 1`), probe jumps to `error_destroy_device` with `retval` still 0. It unwinds everything yet returns 0, so the USB core believes the interface is bound. | `usb_bulk_msg` returns 0 with `actual_len == 0` after every earlier step succeeds | a short write should set an error code (for example -EIO) before the jump, so probe fails exactly when it unwinds | not executed | RelayDriver.ShortWriteReportsSuccess, RelayDriver.ShortWriteExample | RelayDriver.ProbeSucceedsIffReady |
