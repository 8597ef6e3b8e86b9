/**
 * Template identifiers. A leading `~` marks a weak name, one the patcher
 * discovers by matching; any other token is a literal name.
 */
module Idents {

  const WeakMarker: char := '~'

  datatype Ident = Ident(isWeak: bool, name: string)

  /** Reads a template token as an identifier. */
  function ParseIdent(raw: string): (id: Ident)
    ensures id.isWeak <==> |raw| > 0 && raw[0] == WeakMarker
    ensures raw == (if id.isWeak then [WeakMarker] + id.name else id.name)
  {
    if |raw| > 0 && raw[0] == WeakMarker then Ident(true, raw[1..]) else Ident(false, raw)
  }

  /** The token an identifier is written as. */
  function RawIdent(id: Ident): string {
    if id.isWeak then [WeakMarker] + id.name else id.name
  }

  /** Every weak identifier, and every literal one not starting with the marker, reads back as itself. */
  lemma ParseRawIdent(id: Ident)
    requires id.isWeak || |id.name| == 0 || id.name[0] != WeakMarker
    ensures ParseIdent(RawIdent(id)) == id
  {
    if id.isWeak {
      assert ([WeakMarker] + id.name)[1..] == id.name;
    }
  }
}
