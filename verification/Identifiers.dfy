// Row identifiers: 36-character UUID strings, with the all-zero one as the absent value.
module Identifiers {

  type Uuid = s: string | |s| == 36 witness "00000000-0000-0000-0000-000000000000"

  const NIL: Uuid := "00000000-0000-0000-0000-000000000000"
}
