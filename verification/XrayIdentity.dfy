/** The names under which Xray counts an account on each of its inlets. */
module XrayIdentity {

  datatype Inlet = Main | Netlify | Iran

  function Prefix(inlet: Inlet): string {
    match inlet case Main => "zvpn-" case Netlify => "zvpn-netlify-" case Iran => "zvpn-iran-"
  }
}
