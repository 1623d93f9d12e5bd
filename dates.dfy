/** PHP's DateTime and DateTimeZone, kept uninterpreted: calendar, timezone
    and daylight-saving arithmetic, relative phrases such as "+ 10 days", and
    formatting are the library's business. The plugin only constructs a
    moment from a string in a zone (which may throw), compares timestamps and
    formats a moment back into a string. */
module Dates {
  import opened Php

  /** A Unix timestamp, as `getTimestamp()` returns it. */
  type Stamp = int

  /** The two output formats the plugin stores: 'Y-m-d h:00:00 A T' (the hour
      with minutes and seconds written as zero) and 'Y-m-d h:i:s A T'. */
  datatype Pattern = TopOfHour | Exact

  /** The date library as three functions the model does not look into.
      `zoneKnown(z)`: `new DateTimeZone(z)` does not throw.
      `parse(text, z)`: the moment `new DateTime(text, zone z)` denotes, read
      at the current clock, or None when the constructor throws on the text.
      `format(t, p, z)`: moment t written in pattern p in zone z. */
  datatype DateLib = DateLib(
    zoneKnown: string -> bool,
    parse: (string, string) -> Option<Stamp>,
    format: (Stamp, Pattern, string) -> string)

  /** `new DateTime(text, new DateTimeZone(zone))`: None when either
      constructor throws. */
  function Construct(lib: DateLib, text: string, zone: string): Option<Stamp>
  {
    if lib.zoneKnown(zone) then lib.parse(text, zone) else None
  }
}
