/**
 Home Assistant entity domains that the entity factory's lookup table names.
 Every other domain name is just a string that is absent from the table.
 */
module Domains {
  import opened Wrappers

  datatype HassDomain =
    | BinarySensor
    | Cover
    | Humidifier
    | Number
    | Sensor
    | Switch
    | Update
    | Valve

  /** The domain's name as Home Assistant spells it; the factory dispatches on it. */
  function HassDomainName(d: HassDomain): string
  {
    match d
    case BinarySensor => "binary_sensor"
    case Cover => "cover"
    case Humidifier => "humidifier"
    case Number => "number"
    case Sensor => "sensor"
    case Switch => "switch"
    case Update => "update"
    case Valve => "valve"
  }

  /** True when some declared domain is spelt `name`. */
  ghost predicate IsDeclaredDomainName(name: string)
  {
    exists d: HassDomain :: HassDomainName(d) == name
  }

  /** The inverse of HassDomainName: the domain spelt `name`, if any. */
  function DomainNamed(name: string): (r: Option<HassDomain>)
    ensures r.Some? ==> HassDomainName(r.value) == name
    ensures r.None? <==> !IsDeclaredDomainName(name)
  {
    if name == "binary_sensor" then Some(BinarySensor)
    else if name == "cover" then Some(Cover)
    else if name == "humidifier" then Some(Humidifier)
    else if name == "number" then Some(Number)
    else if name == "sensor" then Some(Sensor)
    else if name == "switch" then Some(Switch)
    else if name == "update" then Some(Update)
    else if name == "valve" then Some(Valve)
    else None
  }

  /** Reading a domain back from its name gives the same domain. */
  lemma DomainNameRoundTrip(d: HassDomain)
    ensures DomainNamed(HassDomainName(d)) == Some(d)
  {
  }

  /** No two domains share a name, so the lookup table's keys are distinct. */
  lemma HassDomainNameInjective(a: HassDomain, b: HassDomain)
    ensures HassDomainName(a) == HassDomainName(b) ==> a == b
  {
    DomainNameRoundTrip(a);
    DomainNameRoundTrip(b);
  }
}
