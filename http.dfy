/** The parts of Go's net/http that the handler and the client touch. */
module Http {

  newtype byte = x: int | 0 <= x < 256

  const StatusOK := 200
  const StatusBadRequest := 400
  const StatusInternalServerError := 500

  /** `http.Header`: each header name, in canonical form, with its values. */
  type Header = map<string, seq<string>>

  /** `Header.Get`: the first value stored under the name, or "" when the
      header is absent or has no value. */
  function Get(h: Header, name: string): (v: string)
    ensures name in h && |h[name]| > 0 ==> v == h[name][0]
    ensures !(name in h && |h[name]| > 0) ==> v == ""
  {
    if name in h && |h[name]| > 0 then h[name][0] else ""
  }

  /** `Header.Set`: the name now has exactly the one value; every other
      header is left as it was. */
  function Set(h: Header, name: string, value: string): (r: Header)
    ensures Get(r, name) == value
    ensures name in r && r[name] == [value]
    ensures forall n :: n in h && n != name ==> n in r && r[n] == h[n]
    ensures forall n :: n in r ==> n in h || n == name
  {
    h[name := [value]]
  }
}
