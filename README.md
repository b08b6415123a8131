# certreloader: the reload-and-publish state machine

This project models a Go certificate reloader. The reloader keeps a TLS certificate and
private key loaded from two files, re-reads them on a timer, and publishes a newly parsed
key pair only when the contents changed and parse cleanly. A failed or no-op attempt leaves
everything as it was. A successful attempt replaces the accepted certificate bytes, the
accepted key bytes and the published certificate together. Stopping is one-shot and final.

See `reloader.go:20-105` for the source. The model has two modules:

- `ReloadSpec` (`reload_spec.dfy`) holds the state machine as values. `State` is the
  reloader's fields. `ReloadOutcome` is what one `reload()` decides. `Apply` is how that
  decision changes the state. `TickStep` and `StopStep` cover the timer and `Stop`.
  `Run` folds a sequence of ticks and stops. The lemmas here state the properties.
- `CertReloader` (`reloader.dfy`) holds `class Reloader`. It keeps the Go struct's paths,
  `certPEM`, `keyPEM` and `cert`. It has a `stopped` flag where the struct has the `chStop`
  channel. It adds `parse`, the key-pair parser, and `log`, the lines written to the process
  log. Its methods `New`, `Reload`, `Get`, `Stop` and `Tick` update them in place.
  Each method is proved against `ReloadSpec` through `Model()`. `Valid()` is the invariant
  that the published pair is exactly what the parser makes of the accepted bytes.
  `class Certificate` stands for `*tls.Certificate`: each successful reload allocates a new
  one. So "the same reference" is `cert == old(cert)`, and a republish is `fresh(cert)`.

Foreign calls are parameters:

- `ioutil.ReadFile` is a `FileSystem` (`Path -> ReadResult`). Each attempt receives the disk
  as it is at that moment.
- `tls.X509KeyPair` is a `Parser` (`(Bytes, Bytes) -> ParseResult`). The reloader fixes it
  as a constant when it is created.

Two details of the code that the model keeps:

- The stored contents start as nil, and `bytes.Equal` treats nil as equal to empty
  (`reloader.go:40-43`, `reloader.go:89`). So if both files are empty on the first load,
  the load succeeds without parsing, and `Get` returns nil. `EmptyFilesOnFirstLoad` shows
  this, and `Reloader.New` allows `cert == null` in exactly that case.
- Change detection compares the full file contents, not a hash of them.

## Model

| member | source | states |
|---|---|---|
| `ReloadSpec.Initial` | reloader.go:40-43 | a fresh reloader has empty (nil) accepted contents and nothing published |
| `ReloadSpec.Message` | reloader.go:83-88 | a certificate-read error text starts with "unable to read certificate: ", a key-read error text starts with "unable to read private key: ", and a parser error is passed on unchanged; the same text is what the tick loop logs (reloader.go:58) |
| `ReloadSpec.ReloadOutcome` | reloader.go:76-99 | the decision of one `reload()`: a certificate error exactly when the certificate read fails; no change exactly when both reads give the stored contents; a replacement only with what both reads gave, only when that differs from the stored contents, and only with the pair the parser made of it. The lemmas below cover each case |
| `ReloadSpec.Apply` | reloader.go:95-97 | a replacement sets the certificate bytes, the key bytes and the published pair together; any other outcome leaves the state as it was; paths, stop flag and log never change |
| `ReloadSpec.ErrorOf` | reloader.go:76-99 | `reload()` returns an error exactly when the attempt failed |
| `ReloadSpec.TickStep` | reloader.go:54-61 | a tick on a stopped reloader changes nothing; a tick never changes the stop flag or the paths; it appends at most one log line and never removes one |
| `ReloadSpec.StopStep` | reloader.go:68-74 | stopping sets the stop flag and changes nothing else, whether or not the reloader was already stopped |
| `ReloadSpec.ReadErrorMessagesDiffer` | reloader.go:83-88 | the certificate-read and key-read error texts start with prefixes that name the file, and no two such texts are equal, whatever their causes |
| `ReloadSpec.CertificateReadFailure` | reloader.go:83-85 | a failed certificate read gives a certificate error and changes nothing; the outcome does not depend on the key file |
| `ReloadSpec.PrivateKeyReadFailure` | reloader.go:86-88 | a failed key read after a good certificate read gives a private-key error, never a certificate error, and changes nothing |
| `ReloadSpec.UnchangedContents` | reloader.go:89-91 | contents equal to the accepted ones give success with no change, whatever the parser would say |
| `ReloadSpec.ParseFailure` | reloader.go:92-94 | changed contents that the parser rejects give the parser's error and leave all accepted fields as they were |
| `ReloadSpec.ParseSuccess` | reloader.go:95-97 | changed contents that the parser accepts give success, and the certificate bytes, key bytes and parsed pair are all taken over together with nothing else changed |
| `ReloadSpec.EmptyFilesOnFirstLoad` | reloader.go:89-91 | on the first load, two empty files equal the nil initial contents, so the load succeeds without parsing and publishes nothing |
| `ReloadSpec.ReloadIdempotent` | reloader.go:89-97 | repeating an attempt on the same files gives a no-op after a replacement, and the same outcome otherwise |
| `ReloadSpec.ReloadPreservesConsistent` | reloader.go:76-99 | one attempt keeps the published pair equal to the parse of the accepted contents, and keeps nothing published only while nothing is accepted |
| `ReloadSpec.StopIdempotent` | reloader.go:68-74 | stopping twice is the same as stopping once; afterwards the reloader is stopped, and nothing else changed |
| `ReloadSpec.StepPreservesConsistent` | reloader.go:54-61 | a tick or a stop keeps the state consistent and keeps both paths |
| `ReloadSpec.RunPreservesConsistent` | reloader.go:54-61 | every state reached by any sequence of ticks and stops is consistent |
| `ReloadSpec.RunKeepsPublished` | reloader.go:16-19 | once a pair is published, some pair stays published through any sequence of events (a bad rotation never unpublishes) |
| `ReloadSpec.StoppedRunIsFrozen` | reloader.go:65-67 | once stopped, no event changes anything: no reload, no log line, no restart, and the loaded certificate stays available |
| `ReloadSpec.RunAcceptsWholeSnapshots` | reloader.go:95-97 | whenever a run changes what is accepted, the final certificate bytes, key bytes and published pair all come from one tick that read both files and had them parsed |
| `CertReloader.Certificate.constructor` | reloader.go:97 | a published certificate holds the parsed pair it was made from; that field is constant |
| `CertReloader.Reloader.constructor` | reloader.go:40-43 | the reloader before its first load: the given paths, nothing accepted, a null certificate, running |
| `CertReloader.Reloader.New` | reloader.go:32-63 | no reloader and the error exactly when the first reload fails; otherwise a new, valid, running reloader in the state the first reload left, with a non-null certificate exactly when that load parsed |
| `CertReloader.Reloader.Reload` | reloader.go:76-99 | returns the outcome's error and moves to the state `ReloadOutcome` decides; a replacement publishes a new certificate object, and every other outcome keeps the very same reference |
| `CertReloader.Reloader.Get` | reloader.go:102-105 | returns exactly the stored certificate and changes nothing; a non-null result is the parse of the accepted contents |
| `CertReloader.Reloader.Stop` | reloader.go:68-74 | afterwards stopped and nothing else changed; on an already-stopped reloader nothing changes at all |
| `CertReloader.Reloader.Tick` | reloader.go:54-61 | while running, one reload whose error is appended to the log; once stopped, nothing happens; the certificate reference changes only on a replacement |
| `CertReloader.RotationScenario` | reloader.go:16-19 | a client that loads one pair, ticks over a second valid pair and then stops is served the second pair, whatever a later tick finds on disk |

## Left out

- `filepath.Abs` (`reloader.go:34-39`): OS path resolution. Paths are taken as given, and its error return is not modelled.
- `ioutil.ReadFile`: file I/O. It becomes the `FileSystem` argument of each attempt.
- `CertReloader.Reloader.Reload`: the source reads the two files at two different moments (`reloader.go:83`, `reloader.go:86`). The model takes both reads from one `FileSystem` snapshot. So it cannot express a file rewritten between the two reads, for instance when both paths name the same combined PEM file.
- `tls.X509KeyPair` and the contents of `tls.Certificate`: foreign PEM and crypto parsing. The parser is uninterpreted, and `KeyPair` is an abstract chain plus private key.
- The `interval` argument, `time.NewTicker`, both goroutines and the stop channel (`reloader.go:47-61`): timers and concurrency. The channel is the `stopped` flag. Each timer tick is one call of `Tick`, which reloads only while not stopped.
- `CertReloader.Reloader.Tick`: the doc comment (`reloader.go:65`) promises no further reloading after `Stop`, but the code does not guarantee it. `close(chStop)` (`reloader.go:72`) and `ticker.Stop()` (`reloader.go:51`) run in different goroutines, so a tick can fire between them. A tick can already be waiting in `ticker.C`. A reload can still be running when `Stop` returns. The reload goroutine also never exits. The model follows the doc comment and gates every tick on the flag.
- `CertReloader.Reloader.Stop`: concurrent calls are not modelled. Its select-then-close (`reloader.go:69-73`) is not atomic, so two concurrent `Stop` calls can both take `default` and close the channel twice, which panics. `StopIdempotent` and `Stop`'s contract cover calls made one after another only.
- `atomic.StorePointer` / `atomic.LoadPointer` (`reloader.go:97`, `reloader.go:103-104`): memory-model atomicity. Publication is a single field assignment in this sequential model. Freedom from torn reads across threads is not modelled.
- `log.Print` (`reloader.go:58`): the process log is the `log` field, a sequence of the lines written.
- The wrapped OS error text: read failures carry the cause as an opaque string.
- `reloader_test.go`: an example that starts an HTTPS server. It has no assertions.
