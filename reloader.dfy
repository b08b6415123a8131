/** The certificate reloader as an object: the fields the source updates in place, and
    its operations proved against the state machine of module ReloadSpec. */
module CertReloader {

  import opened ReloadSpec

  /** A parsed certificate as published to readers. It is never changed after it is made;
      a successful reload makes a new one, so readers holding the old one keep it whole. */
  class Certificate {
    const pair: KeyPair

    constructor (pair: KeyPair)
      ensures this.pair == pair
    {
      this.pair := pair;
    }
  }

  class Reloader {
    const certPath: Path
    const keyPath: Path
    /** The key-pair parser, a fixed library routine. */
    const parse: Parser

    /** Last accepted contents of the two files. */
    var certPEM: Bytes
    var keyPEM: Bytes
    /** The published certificate; null until a first pair has been accepted. */
    var cert: Certificate?
    /** Whether the stop channel has been closed. */
    var stopped: bool
    /** The lines this reloader has written to the process log. */
    var log: seq<string>

    /** The reloader's state as a value. */
    ghost function Model(): State
      reads this
    {
      State(certPath, keyPath, certPEM, keyPEM,
            if cert == null then None else Some(cert.pair), stopped, log)
    }

    ghost predicate Valid()
      reads this
    {
      Consistent(Model(), parse)
    }

    /** The reloader before its first load. */
    constructor (certPath: Path, keyPath: Path, parse: Parser)
      ensures Valid() && this.parse == parse
      ensures Model() == Initial(certPath, keyPath) && cert == null
    {
      this.certPath := certPath;
      this.keyPath := keyPath;
      this.parse := parse;
      certPEM, keyPEM, cert := [], [], null;
      stopped, log := false, [];
    }

    /** Construction with its mandatory first load: no reloader and the error exactly when
        that load fails; otherwise a running reloader holding what the load left. */
    static method New(certPath: Path, keyPath: Path, fs: FileSystem, parse: Parser)
      returns (r: Reloader?, err: Option<Error>)
      ensures var o := ReloadOutcome(Initial(certPath, keyPath), fs, parse);
        && err == ErrorOf(o)
        && (r == null <==> err.Some?)
        && (r != null ==>
              fresh(r) && r.Valid() && r.parse == parse
              && r.Model() == Apply(Initial(certPath, keyPath), o)
              && (o.Replaced? <==> r.cert != null))
    {
      var reloader := new Reloader(certPath, keyPath, parse);
      err := reloader.Reload(fs);
      if err.Some? {
        return null, err;
      }
      r := reloader;
    }

    /** One reload attempt against the files as `fs` has them now. */
    method Reload(fs: FileSystem) returns (err: Option<Error>)
      requires Valid()
      modifies this
      ensures Valid()
      ensures var o := ReloadOutcome(old(Model()), fs, parse);
        && err == ErrorOf(o)
        && Model() == Apply(old(Model()), o)
        && (if o.Replaced? then cert != null && fresh(cert) else cert == old(cert))
    {
      var certRead := fs(certPath);
      if certRead.ReadError? {
        return Some(CertificateUnreadable(certRead.cause));
      }
      var keyRead := fs(keyPath);
      if keyRead.ReadError? {
        return Some(PrivateKeyUnreadable(keyRead.cause));
      }
      if certRead.data == certPEM && keyRead.data == keyPEM {
        return None;
      }
      var parsed := parse(certRead.data, keyRead.data);
      if parsed.ParseError? {
        return Some(KeyPairRejected(parsed.cause));
      }
      var published := new Certificate(parsed.pair);
      certPEM, keyPEM, cert := certRead.data, keyRead.data, published;
      err := None;
    }

    /** The currently published certificate, which is the parse of the accepted contents. */
    method Get() returns (c: Certificate?)
      requires Valid()
      ensures c == cert
      ensures c != null ==> parse(certPEM, keyPEM) == Parsed(c.pair)
      ensures c == null ==> certPEM == [] && keyPEM == []
    {
      c := cert;
    }

    /** Closes the stop channel unless it is closed already. */
    method Stop()
      requires Valid()
      modifies this
      ensures Valid()
      ensures Model() == StopStep(old(Model())) && stopped
      ensures cert == old(cert)
      ensures old(stopped) ==> unchanged(this)
    {
      if !stopped {
        stopped := true;
      }
    }

    /** One tick of the reload timer: an attempt while running, its error logged. */
    method Tick(fs: FileSystem)
      requires Valid()
      modifies this
      ensures Valid()
      ensures Model() == TickStep(old(Model()), fs, parse)
      ensures if !old(stopped) && ReloadOutcome(old(Model()), fs, parse).Replaced?
              then cert != null && fresh(cert) else cert == old(cert)
    {
      if stopped {
        return;
      }
      var err := Reload(fs);
      if err.Some? {
        log := log + [Message(err.value)];
      }
    }
  }

  /** A rotation as a client sees it: load a first pair, take over a second one, stop, and
      keep serving the second one whatever lands on disk afterwards. */
  method RotationScenario(certPath: Path, keyPath: Path, parse: Parser,
                          first: FileSystem, second: FileSystem, third: FileSystem)
    returns (served: Certificate?)
    requires first(certPath).Contents? && first(keyPath).Contents?
    requires second(certPath).Contents? && second(keyPath).Contents?
    requires first(certPath).data != second(certPath).data
    requires parse(first(certPath).data, first(keyPath).data).Parsed?
    requires parse(second(certPath).data, second(keyPath).data).Parsed?
    ensures served != null
    ensures served.pair == parse(second(certPath).data, second(keyPath).data).pair
  {
    var r, err := Reloader.New(certPath, keyPath, first, parse);
    assert r != null;
    r.Tick(second);
    var c2 := r.Get();
    r.Stop();
    r.Tick(third);
    served := r.Get();
    assert served == c2;
  }
}
