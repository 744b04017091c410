/** The authentication middleware of src/middleware/auth.ts: `verificarToken`
    (bearer header, token verification, user lookup) and `soloAdmin` (the
    role gate). Token verification is an oracle parameter: `verify(token)`
    is the id carried by a valid token and `None` when verification throws. */
module Auth {
  import opened Wrappers
  import opened Domain
  import opened Text

  /** What the middleware attaches to the request: the user's id, email
      and role. */
  datatype Sesion = Sesion(id: Id, email: string, rol: Rol)

  /** A middleware's decision: call `next` with the session, or reply with
      an error. */
  datatype Guard = Pass(sesion: Sesion) | Reject(status: nat, error: string)

  const Bearer: string := "Bearer "

  /** `authHeader.split(' ')[1]`: the header's second space-separated
      segment. A header that starts with `Bearer ` always has one. */
  function Token(header: string): (t: string)
    requires StartsWith(header, Bearer)
    ensures ' ' !in t
  {
    BearerSplits(header);
    Split(header, ' ')[1]
  }

  lemma BearerSplits(header: string)
    requires StartsWith(header, Bearer)
    ensures |Split(header, ' ')| >= 2
    ensures Split(header, ' ')[1] == Split(header[|Bearer|..], ' ')[0]
  {
    assert header[..|Bearer|] == Bearer;
    assert header[6] == ' ';
    assert ' ' !in header[..6] by {
      assert header[..6] == "Bearer";
    }
    assert IndexOf(header, ' ') == 6;
  }

  /** The token is the text after `Bearer ` up to the next space, or to the
      end of the header when there is none. */
  lemma TokenAfterBearer(header: string)
    requires StartsWith(header, Bearer)
    ensures var t := Token(header);
      var rest := header[|Bearer|..];
      && |Bearer| + |t| <= |header|
      && header[|Bearer|..|Bearer| + |t|] == t
      && (|Bearer| + |t| == |header| || header[|Bearer| + |t|] == ' ')
  {
    BearerSplits(header);
    var rest := header[|Bearer|..];
    SplitHead(rest, ' ');
    var t := Split(rest, ' ')[0];
    assert rest[..|t|] == header[|Bearer|..|Bearer| + |t|];
  }

  function SesionDe(u: Usuario): Sesion {
    Sesion(u.id, u.email, u.rol)
  }

  /** `verificarToken`. */
  function VerificarToken(header: Option<string>, verify: string -> Option<Id>, usuarios: map<Id, Usuario>): (g: Guard)
    ensures g.Reject? ==> g.status == 401
    ensures header.None? || !StartsWith(header.value, Bearer) ==>
      g == Reject(401, "Token no proporcionado")
    ensures header.Some? && StartsWith(header.value, Bearer) ==>
      var id := verify(Token(header.value));
      && (id.None? ==> g == Reject(401, "Token inválido"))
      && (id.Some? && id.value !in usuarios ==> g == Reject(401, "Usuario no encontrado"))
    ensures g.Pass? <==>
      && header.Some? && StartsWith(header.value, Bearer)
      && verify(Token(header.value)).Some?
      && verify(Token(header.value)).value in usuarios
    ensures g.Pass? ==>
      var id := verify(Token(header.value)).value;
      g.sesion == SesionDe(usuarios[id])
  {
    if header.None? || !StartsWith(header.value, Bearer) then Reject(401, "Token no proporcionado")
    else
      match verify(Token(header.value))
      case None => Reject(401, "Token inválido")
      case Some(id) =>
        if id !in usuarios then Reject(401, "Usuario no encontrado")
        else Pass(SesionDe(usuarios[id]))
  }

  /** A missing or malformed header is rejected before the token is looked
      at: the outcome depends neither on the verifier nor on the users. */
  lemma MalformedHeaderSkipsLookup(header: Option<string>, verify: string -> Option<Id>, verify': string -> Option<Id>,
                                   usuarios: map<Id, Usuario>, usuarios': map<Id, Usuario>)
    requires header.None? || !StartsWith(header.value, Bearer)
    ensures VerificarToken(header, verify, usuarios) == VerificarToken(header, verify', usuarios')
  {
  }

  /** A session is always that of a registered user: its id, email and
      role are the stored user's. */
  lemma SesionOfRegisteredUser(header: Option<string>, verify: string -> Option<Id>, usuarios: map<Id, Usuario>)
    requires VerificarToken(header, verify, usuarios).Pass?
    ensures exists id :: id in usuarios && VerificarToken(header, verify, usuarios).sesion == SesionDe(usuarios[id])
  {
    var id := verify(Token(header.value)).value;
    assert id in usuarios;
  }

  /** `soloAdmin`: passes an administrator's session through, rejects
      anything else with a 403. */
  function SoloAdmin(sesion: Option<Sesion>): (g: Guard)
    ensures g.Pass? <==> sesion.Some? && sesion.value.rol == Admin
    ensures g.Pass? ==> g.sesion == sesion.value
    ensures g.Reject? ==> g == Reject(403, "Acceso denegado. Solo administradores.")
  {
    if sesion.Some? && sesion.value.rol == Admin then Pass(sesion.value)
    else Reject(403, "Acceso denegado. Solo administradores.")
  }

  /** The two middlewares in sequence, as every admin route mounts them. */
  function GuardAdmin(header: Option<string>, verify: string -> Option<Id>, usuarios: map<Id, Usuario>): (g: Guard)
    ensures g.Reject? ==> g.status in {401, 403}
    ensures g.Pass? ==> g.sesion.rol == Admin
  {
    match VerificarToken(header, verify, usuarios)
    case Reject(status, error) => Reject(status, error)
    case Pass(s) => SoloAdmin(Some(s))
  }

  /** The admin guard's three outcomes: 401 exactly when authentication
      fails, 403 exactly when an authenticated user is not an administrator,
      and a pass exactly for a registered administrator. */
  lemma GuardAdminOutcomes(header: Option<string>, verify: string -> Option<Id>, usuarios: map<Id, Usuario>)
    ensures var g := GuardAdmin(header, verify, usuarios);
      var a := VerificarToken(header, verify, usuarios);
      && (g.Reject? && g.status == 401 <==> a.Reject?)
      && (g.Reject? && g.status == 403 <==> a.Pass? && a.sesion.rol != Admin)
      && (g.Pass? <==> a.Pass? && a.sesion.rol == Admin)
      && (g.Pass? ==> g == a)
  {
  }
}
