/** Shared vocabulary of the dashboard: the exchange-rate record as the upstream
    service delivers it, the two denominations a user can select, and the
    x100 scaling of stored rates. */
module ExchangeRate {

  datatype Option<+T> = None | Some(value: T)

  /** One observation. `rate` is the IQD-per-USD rate multiplied by 100;
      `timestamp` is the instant in milliseconds that the record's ISO-8601
      string denotes; `rateType` is the raw string the upstream sent, which
      may be neither of the two known denominations. */
  datatype Record = Record(
    id: int,
    city: string,
    rateType: string,
    rate: int,
    timestamp: int,
    messageId: Option<int>)

  /** The denomination a user can select: 5,000 ("penji") or 25,000 ("sur") dinar notes. */
  datatype RateType = Penji | Sur {
    function Name(): (s: string)
      ensures s == "penji" || s == "sur"
      ensures this == Penji <==> s == "penji"
    {
      match this
      case Penji => "penji"
      case Sur => "sur"
    }
  }

  /** The stored rate converted to IQD per USD: the one place the x100 scaling is undone. */
  function Scale(rate: int): (r: real)
    ensures r * 100.0 == rate as real
  {
    rate as real / 100.0
  }
}
