/** client/src/components/Register.js: the registration form's state, its field update, and the
    checks and shaping handleSubmit applies before posting to /api/auth/register. The form is a
    map from field name to the text typed into it. */
module RegisterForm {
  import opened Js
  import Auth

  type Form = map<string, string>

  /** The fields the form starts with. */
  const Fields: set<string> :=
    {"username", "email", "password", "confirmPassword", "role", "first_name", "last_name", "phone", "specialty"}

  /** A form holding at least every field it starts with. */
  predicate Complete(form: Form) {
    Fields <= form.Keys
  }

  /** The initial state: every field empty except the role, which is "emt". */
  function InitialForm(): (r: Form)
    ensures Complete(r) && r.Keys == Fields
    ensures r["role"] == "emt"
    ensures forall k :: k in r && k != "role" ==> r[k] == ""
  {
    map k | k in Fields :: if k == "role" then "emt" else ""
  }

  /** handleChange: `{...formData, [name]: value}`. */
  function HandleChange(form: Form, name: string, value: string): (r: Form)
    ensures r.Keys == form.Keys + {name}
    ensures r[name] == value
    ensures forall k :: k in form && k != name ==> r[k] == form[k]
    ensures Complete(form) ==> Complete(r)
  {
    form[name := value]
  }

  const PasswordsDiffer := "Passwords do not match"
  const TooShort := "Password must be at least 6 characters long"
  const MinPasswordLength := 6

  datatype Submission =
    | Rejected(message: string)
    | Submitted(payload: Form)

  /** The payload a checked form is posted as: the form without confirmPassword, and without
      specialty when the role is "emt"; every other field as typed. */
  function PayloadOf(form: Form): (r: Form)
    ensures "confirmPassword" !in r
    ensures "role" in form ==> ("specialty" in r <==> "specialty" in form && form["role"] != "emt")
    ensures forall k :: k in r ==> k in form && r[k] == form[k]
    ensures forall k :: k in form && k != "confirmPassword" && k != "specialty" ==> k in r
  {
    var userData := form - {"confirmPassword"};
    if "role" in userData && userData["role"] == "emt" then userData - {"specialty"} else userData
  }

  /** handleSubmit: a mismatch of the two passwords is reported before a short password; a
      form passing both is copied, and confirmPassword and (for an EMT) specialty are deleted
      from the copy. */
  method HandleSubmit(form: Form) returns (r: Submission)
    requires Complete(form)
    ensures r == Rejected(PasswordsDiffer) <==> form["password"] != form["confirmPassword"]
    ensures r == Rejected(TooShort) <==>
              form["password"] == form["confirmPassword"] && |form["password"]| < MinPasswordLength
    ensures r.Submitted? <==>
              form["password"] == form["confirmPassword"] && |form["password"]| >= MinPasswordLength
    ensures r.Submitted? ==> r.payload == PayloadOf(form)
  {
    if form["password"] != form["confirmPassword"] {
      return Rejected(PasswordsDiffer);
    }
    if |form["password"]| < MinPasswordLength {
      return Rejected(TooShort);
    }
    var userData := form;
    userData := userData - {"confirmPassword"};
    if userData["role"] == "emt" {
      userData := userData - {"specialty"};
    }
    r := Submitted(userData);
  }

  /** A payload field as the server reads it from the JSON body: absent is undefined. */
  function Field(payload: Form, name: string): (v: Value)
    ensures name in payload ==> v == Str(payload[name])
    ensures name !in payload ==> v == Undefined
  {
    if name in payload then Str(payload[name]) else Undefined
  }

  /** The request body the server's register route receives for a payload. */
  function BodyOf(payload: Form): Auth.RegisterBody {
    Auth.RegisterBody(
      Field(payload, "username"), Field(payload, "email"), Field(payload, "password"),
      Field(payload, "role"), Field(payload, "first_name"), Field(payload, "last_name"),
      Field(payload, "phone"), Field(payload, "specialty"))
  }

  /** A submitted complete form reaches the server with every field as a string, the password
      being the confirmed one of at least six characters, and a specialty that is undefined
      (stored as NULL) exactly for an EMT. */
  lemma SubmittedBody(form: Form)
    requires Complete(form)
    requires form["password"] == form["confirmPassword"] && |form["password"]| >= MinPasswordLength
    ensures var b := BodyOf(PayloadOf(form));
            && b.username == Str(form["username"]) && b.email == Str(form["email"])
            && b.password == Str(form["confirmPassword"])
            && b.role == Str(form["role"])
            && b.firstName == Str(form["first_name"]) && b.lastName == Str(form["last_name"])
            && b.phone == Str(form["phone"])
            && (b.specialty == Undefined <==> form["role"] == "emt")
            && (form["role"] != "emt" ==> b.specialty == Str(form["specialty"]))
  {
    var p := PayloadOf(form);
    assert "username" in p && "email" in p && "password" in p && "role" in p;
    assert "first_name" in p && "last_name" in p && "phone" in p;
  }
}
