/**
  The venues the bot knows about (xyz415.py): their credentials, read from the
  environment into `exchange_configs`; the buyer and seller roles; the
  credential check `_validate_api_keys`; and the dispatch of
  `check_margin_availability`, whose network lookups are left to an oracle.
*/
module Venues {
  import opened Wrappers
  import opened Text

  /** The process environment: a variable that is not set is absent from the map. */
  type Env = map<string, string>

  /** `os.getenv(name)`. */
  function Getenv(env: Env, name: string): Option<string> {
    if name in env then Some(env[name]) else None
  }

  /** The `params` of one venue. Venues without a password have `None` there,
      which is what `params.get('password')` gives for them. */
  datatype Params = Params(apiKey: Option<string>, secret: Option<string>, password: Option<string>)

  type Configs = map<string, Params>

  /** Python truthiness of an optional string: present and non-empty. */
  predicate Truthy(v: Option<string>) {
    v.Some? && v.value != ""
  }

  const Mexc := "mexc"
  const Bitget := "bitget"
  const Okx := "okx"
  const Gate := "gate"
  const Kucoin := "kucoin"

  /** `exchange_configs` as built in the constructor from the environment. */
  function ExchangeConfigs(env: Env): (c: Configs)
    ensures c.Keys == {Mexc, Bitget, Okx, Gate, Kucoin}
  {
    map[
      Mexc := Params(Getenv(env, "MEXC_KEY"), Getenv(env, "MEXC_SECRET"), None),
      Bitget := Params(Getenv(env, "BITGET_KEY"), Getenv(env, "BITGET_SECRET"), Getenv(env, "BITGET_PASSWORD")),
      Okx := Params(Getenv(env, "OKX_KEY"), Getenv(env, "OKX_SECRET"), Getenv(env, "OKX_PASSWORD")),
      Gate := Params(Getenv(env, "GATE_KEY"), Getenv(env, "GATE_SECRET"), None),
      Kucoin := Params(Getenv(env, "KUCOIN_KEY"), Getenv(env, "KUCOIN_SECRET"), Getenv(env, "KUCOIN_PASSWORD"))
    ]
  }

  /** `buyer_exchanges` and `seller_exchanges`. */
  const Buyers: seq<string> := [Bitget, Okx, Mexc]
  const Sellers: seq<string> := [Gate, Kucoin]

  /** The venues whose API also needs a passphrase. */
  const PasswordVenues: seq<string> := [Bitget, Okx, Kucoin]

  /** No venue both buys and sells. */
  lemma RolesDisjoint(v: string)
    ensures !(v in Buyers && v in Sellers)
  {
  }

  /** Every venue with a role has a configuration. */
  lemma RolesConfigured(env: Env, v: string)
    requires v in Buyers || v in Sellers
    ensures v in ExchangeConfigs(env)
  {
  }

  // ---------------------------------------------------------------------------
  // _validate_api_keys
  // ---------------------------------------------------------------------------

  /** The first thing wrong with a venue's credentials, in the order they are checked. */
  datatype KeyProblem =
    | UnknownVenue(venue: string)
    | MissingApiKey(venue: string)
    | MissingSecret(venue: string)
    | MissingPassword(venue: string)

  /** Reference: the venue is known, has an API key and a secret, and a password
      when its API needs one. */
  predicate VenueReady(c: Configs, v: string) {
    v in c && Truthy(c[v].apiKey) && Truthy(c[v].secret)
    && (v in PasswordVenues ==> Truthy(c[v].password))
  }

  /** The checks of one venue, stopping at the first that fails. */
  function VenueProblem(c: Configs, v: string): (r: Option<KeyProblem>)
    ensures r.None? <==> VenueReady(c, v)
    ensures r.Some? ==> r.value.venue == v
  {
    if v !in c then Some(UnknownVenue(v))
    else if !Truthy(c[v].apiKey) then Some(MissingApiKey(v))
    else if !Truthy(c[v].secret) then Some(MissingSecret(v))
    else if v in PasswordVenues && !Truthy(c[v].password) then Some(MissingPassword(v))
    else None
  }

  /** The loop over `exchanges_to_check`: the first venue's problem, if any, ends it. */
  function FirstKeyProblem(c: Configs, venues: seq<string>): Option<KeyProblem>
  {
    if venues == [] then None
    else if VenueProblem(c, venues[0]).Some? then VenueProblem(c, venues[0])
    else FirstKeyProblem(c, venues[1..])
  }

  /** `_validate_api_keys(buy, sell)`. */
  predicate ValidateApiKeys(c: Configs, buy: string, sell: string) {
    FirstKeyProblem(c, [buy, sell]).None?
  }

  /** The loop finds a problem exactly when some venue is not ready; the one it
      reports belongs to the first venue that is not ready, all venues before
      it being ready. */
  lemma {:induction false} FirstKeyProblemIsFirst(c: Configs, venues: seq<string>)
    ensures FirstKeyProblem(c, venues).None? <==> forall i :: 0 <= i < |venues| ==> VenueReady(c, venues[i])
    ensures FirstKeyProblem(c, venues).Some? ==>
      exists i :: 0 <= i < |venues| && FirstKeyProblem(c, venues) == VenueProblem(c, venues[i])
        && !VenueReady(c, venues[i]) && forall j :: 0 <= j < i ==> VenueReady(c, venues[j])
    decreases |venues|
  {
    if venues != [] {
      FirstKeyProblemIsFirst(c, venues[1..]);
      if VenueProblem(c, venues[0]).None? {
        assert forall i :: 1 <= i < |venues| ==> venues[i] == venues[1..][i - 1];
        if FirstKeyProblem(c, venues[1..]).Some? {
          var i :| 0 <= i < |venues[1..]| && FirstKeyProblem(c, venues[1..]) == VenueProblem(c, venues[1..][i])
            && !VenueReady(c, venues[1..][i]) && forall j :: 0 <= j < i ==> VenueReady(c, venues[1..][j]);
          assert FirstKeyProblem(c, venues) == VenueProblem(c, venues[i + 1]);
          assert forall j :: 0 <= j < i + 1 ==> VenueReady(c, venues[j]) by {
            forall j | 0 <= j < i + 1 ensures VenueReady(c, venues[j]) {
              if j > 0 {
                assert venues[j] == venues[1..][j - 1];
              }
            }
          }
        }
      }
    }
  }

  /** `_validate_api_keys` holds exactly when both venues are ready. */
  lemma ValidateApiKeysIff(c: Configs, buy: string, sell: string)
    ensures ValidateApiKeys(c, buy, sell) <==> VenueReady(c, buy) && VenueReady(c, sell)
  {
    FirstKeyProblemIsFirst(c, [buy, sell]);
  }

  /** What readiness means for the configuration built from the environment:
      both variables set and non-empty, and the password too for the three
      venues that need one; an unknown name is never ready. */
  lemma ReadyFromEnv(env: Env, v: string)
    ensures VenueReady(ExchangeConfigs(env), Mexc) <==>
      Truthy(Getenv(env, "MEXC_KEY")) && Truthy(Getenv(env, "MEXC_SECRET"))
    ensures VenueReady(ExchangeConfigs(env), Bitget) <==>
      Truthy(Getenv(env, "BITGET_KEY")) && Truthy(Getenv(env, "BITGET_SECRET")) && Truthy(Getenv(env, "BITGET_PASSWORD"))
    ensures VenueReady(ExchangeConfigs(env), Okx) <==>
      Truthy(Getenv(env, "OKX_KEY")) && Truthy(Getenv(env, "OKX_SECRET")) && Truthy(Getenv(env, "OKX_PASSWORD"))
    ensures VenueReady(ExchangeConfigs(env), Gate) <==>
      Truthy(Getenv(env, "GATE_KEY")) && Truthy(Getenv(env, "GATE_SECRET"))
    ensures VenueReady(ExchangeConfigs(env), Kucoin) <==>
      Truthy(Getenv(env, "KUCOIN_KEY")) && Truthy(Getenv(env, "KUCOIN_SECRET")) && Truthy(Getenv(env, "KUCOIN_PASSWORD"))
    ensures v !in {Mexc, Bitget, Okx, Gate, Kucoin} ==> !VenueReady(ExchangeConfigs(env), v)
  {
    var c := ExchangeConfigs(env);
    assert Mexc !in PasswordVenues && Gate !in PasswordVenues;
    assert c[Mexc].apiKey == Getenv(env, "MEXC_KEY") && c[Gate].secret == Getenv(env, "GATE_SECRET");
  }

  // ---------------------------------------------------------------------------
  // check_margin_availability
  // ---------------------------------------------------------------------------

  /** What the two margin lookups answer: Gate's "is this currency borrowable"
      request, and KuCoin's list of margin currencies (`None` when the request
      fails or does not answer with code "200000"). A Gate request that fails
      answers `false`. */
  datatype MarginSource = MarginSource(gateBorrowable: string -> bool, kucoinCurrencies: Option<seq<string>>)

  /** `is_borrowable_gate` looks up `pair.split('_')[0]`. */
  function GateCurrency(pair: string): string {
    Split(pair, '_')[0]
  }

  /** `check_margin_availability(symbol, sell)`: the symbol must split on `/`
      into exactly two parts (otherwise the unpacking raises and the answer is
      `false`); KuCoin is asked about the base through its currency list, and
      every other venue, Gate included, through Gate's lookup. */
  function MarginAvailable(symbol: string, sell: string, m: MarginSource): bool {
    var parts := Split(symbol, '/');
    if |parts| != 2 then false
    else
      var base := parts[0];
      if sell == Gate then m.gateBorrowable(GateCurrency(base + "_USDT"))
      else if sell == Kucoin then m.kucoinCurrencies.Some? && base in m.kucoinCurrencies.value
      else m.gateBorrowable(GateCurrency(base + "_USDT"))
  }

  /** For a pair `BASE/QUOTE` with no `/` and no `_` in it besides the slash,
      the lookups are asked about `BASE`; a symbol with any other number of
      slashes is refused. */
  lemma MarginOfPair(base: string, quote: string, sell: string, m: MarginSource)
    requires '/' !in base && '/' !in quote && '_' !in base
    ensures MarginAvailable(base + "/" + quote, sell, m) ==
      if sell == Kucoin then m.kucoinCurrencies.Some? && base in m.kucoinCurrencies.value
      else m.gateBorrowable(base)
  {
    PairSplits(base, quote);
    GateCurrencyOfBase(base);
  }

  lemma PairSplits(base: string, quote: string)
    requires '/' !in base && '/' !in quote
    ensures Split(base + "/" + quote, '/') == [base, quote]
  {
    assert base + "/" + quote == base + ['/'] + quote;
    SplitAfterPiece(base, '/', quote);
    SplitWhole(quote, '/');
  }

  lemma GateCurrencyOfBase(base: string)
    requires '_' !in base
    ensures GateCurrency(base + "_USDT") == base
  {
    assert base + "_USDT" == base + ['_'] + "USDT";
    SplitAfterPiece(base, '_', "USDT");
  }

  /** A symbol that does not have exactly one slash never has margin. */
  lemma MarginNeedsOneSlash(symbol: string, sell: string, m: MarginSource)
    requires multiset(symbol)['/'] != 1
    ensures !MarginAvailable(symbol, sell, m)
  {
    SplitCount(symbol, '/');
  }
}
