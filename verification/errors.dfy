/** The failures that abort building an entity, a device or the bridge. */
module Errors {
  import opened Wrappers
  import opened Configuration

  datatype Error =
      /** A `Validate()` call rejected the configuration. */
    | ConfigurationError(message: string)
      /** The domain name is not a key of the factory's lookup table. */
    | DomainNotFound(domainName: string)
      /** The domain is in the table but has no entity class yet. */
    | NotImplemented(domainName: string)
      /** The configuration object is not of the class the constructor casts it to. */
    | InvalidConfigCast(target: ConfigClass, actual: ConfigClass)
      /** The device already holds an entity under this node id. */
    | DuplicateEntityNodeId(nodeId: string)

  const NotImplementedPrefix: string := "Entity domain '"
  const NotImplementedSuffix: string := "' not yet implemented."

  /** The text of the exception raised for a domain without an entity class. */
  function NotImplementedMessage(domainName: string): string
  {
    NotImplementedPrefix + domainName + NotImplementedSuffix
  }

  /** The domain name can be read back out of the message, so the message names it. */
  lemma NotImplementedMessageNamesDomain(domainName: string)
    ensures var m := NotImplementedMessage(domainName);
      && |m| == |domainName| + 37
      && m[..15] == NotImplementedPrefix
      && m[15..|m| - 22] == domainName
      && m[|m| - 22..] == NotImplementedSuffix
  {
    var m := NotImplementedMessage(domainName);
    assert |NotImplementedPrefix| == 15;
    assert |NotImplementedSuffix| == 22;
    assert m[..15] == NotImplementedPrefix;
    assert m[15..|m| - 22] == domainName;
    assert m[|m| - 22..] == NotImplementedSuffix;
  }

  /**
   The domain a "not yet implemented" message names, read back from the
   text between the fixed prefix and suffix; None for any other text.
   */
  function MessageDomain(m: string): Option<string>
  {
    if |m| >= |NotImplementedPrefix| + |NotImplementedSuffix|
       && m[..|NotImplementedPrefix|] == NotImplementedPrefix
       && m[|m| - |NotImplementedSuffix|..] == NotImplementedSuffix
    then Some(m[|NotImplementedPrefix|..|m| - |NotImplementedSuffix|])
    else None
  }

  /** Every "not yet implemented" message names its domain and is read back as it. */
  lemma NotImplementedMessageRoundTrip(domainName: string)
    ensures MessageDomain(NotImplementedMessage(domainName)) == Some(domainName)
  {
    NotImplementedMessageNamesDomain(domainName);
  }

  /** Distinct domains give distinct messages. */
  lemma NotImplementedMessageInjective(a: string, b: string)
    ensures NotImplementedMessage(a) == NotImplementedMessage(b) ==> a == b
  {
    if NotImplementedMessage(a) == NotImplementedMessage(b) {
      NotImplementedMessageNamesDomain(a);
      NotImplementedMessageNamesDomain(b);
    }
  }
}
